/** The JavaScript string operations the lottery code relies on, on `string`
    (a sequence of characters): `padStart`, `slice(-k)`, `String(n)` of an
    integer, `parseInt(s, 10)`, `trim`, the regular-expression class `\s`, and
    `split` on one separator character. */
module Text {
  import opened Wrappers

  /** `s.padStart(n, c)`: `c` repeated in front of `s` up to length `n`. */
  function PadStart(s: string, n: nat, c: char): (r: string)
    ensures |r| == if |s| >= n then |s| else n
    ensures r[|r| - |s|..] == s
    ensures forall i :: 0 <= i < |r| - |s| ==> r[i] == c
  {
    if |s| >= n then s else seq(n - |s|, _ => c) + s
  }

  /** `s.slice(-k)`: the last `k` characters, or all of `s` when it is shorter
      (and, as in JavaScript, all of `s` when `k` is 0). */
  function Last(s: string, k: nat): (r: string)
    ensures k > 0 ==> |r| == if |s| <= k then |s| else k
    ensures |r| <= |s| && r == s[|s| - |r|..]
  {
    if k == 0 || |s| <= k then s else s[|s| - k..]
  }

  /** `s` holds `part` somewhere (`LIKE %part%`). */
  predicate Contains(s: string, part: string)
  {
    exists i :: 0 <= i <= |s| - |part| && OccursAt(s, part, i)
  }

  predicate OccursAt(s: string, part: string, i: int)
  {
    0 <= i && i + |part| <= |s| && s[i..i + |part|] == part
  }

  /** `a <= b` between two text values in SQL: character by character, a
      prefix before every longer string. */
  predicate LexLe(a: string, b: string)
  {
    a == [] || (b != [] && (a[0] < b[0] || (a[0] == b[0] && LexLe(a[1..], b[1..]))))
  }

  predicate EndsWith(s: string, suffix: string)
  {
    |suffix| <= |s| && s[|s| - |suffix|..] == suffix
  }

  predicate IsDigit(c: char)
  {
    '0' <= c <= '9'
  }

  predicate AllDigits(s: string)
  {
    forall i :: 0 <= i < |s| ==> IsDigit(s[i])
  }

  function DigitChar(d: nat): (c: char)
    requires d < 10
    ensures IsDigit(c) && c as int - '0' as int == d
  {
    ('0' as int + d) as char
  }

  function DigitValue(c: char): nat
    requires IsDigit(c)
  {
    c as int - '0' as int
  }

  /** `String(n)` for a natural number: its decimal digits. */
  function NatDigits(n: nat): (r: string)
    ensures 1 <= |r| && AllDigits(r)
    ensures r[0] == '0' <==> n == 0
    ensures n < 10 <==> |r| == 1
    decreases n
  {
    if n < 10 then [DigitChar(n)] else NatDigits(n / 10) + [DigitChar(n % 10)]
  }

  /** `String(n)` for an integer: a minus sign in front of the digits of a negative number. */
  function IntToString(n: int): (r: string)
    ensures n >= 0 ==> r == NatDigits(n)
    ensures n < 0 ==> |r| >= 2 && r[0] == '-' && r[1..] == NatDigits(-n)
  {
    if n < 0 then "-" + NatDigits(-n) else NatDigits(n)
  }

  /** The value of a run of decimal digits; the empty run has value 0. */
  function DigitsValue(s: string): nat
    requires AllDigits(s)
    decreases |s|
  {
    if s == [] then 0 else DigitsValue(s[..|s| - 1]) * 10 + DigitValue(s[|s| - 1])
  }

  /** The longest prefix of `s` made of decimal digits. */
  function LeadingDigits(s: string): (r: string)
    ensures |r| <= |s| && r == s[..|r|] && AllDigits(r)
    ensures |r| < |s| ==> !IsDigit(s[|r|])
    decreases |s|
  {
    if s != [] && IsDigit(s[0]) then [s[0]] + LeadingDigits(s[1..]) else []
  }

  /** `parseInt(s, 10)` on strings without leading white space or sign: the value of
      the leading digits, or `None` (NaN) when `s` does not start with a digit. */
  function ParseInt(s: string): (r: Option<nat>)
    ensures r.None? <==> (s == [] || !IsDigit(s[0]))
  {
    var d := LeadingDigits(s);
    if d == [] then None else Some(DigitsValue(d))
  }

  lemma {:induction false} DigitsValueOfNatDigits(n: nat)
    ensures DigitsValue(NatDigits(n)) == n
    decreases n
  {
    if n >= 10 {
      var s := NatDigits(n / 10) + [DigitChar(n % 10)];
      assert s[..|s| - 1] == NatDigits(n / 10);
      DigitsValueOfNatDigits(n / 10);
    }
  }

  /** Leading zeros do not change the value of a run of digits. */
  lemma {:induction false} DigitsValueLeadingZeros(k: nat, s: string)
    requires AllDigits(s)
    ensures AllDigits(seq(k, _ => '0') + s)
    ensures DigitsValue(seq(k, _ => '0') + s) == DigitsValue(s)
    decreases |s|
  {
    var z := seq(k, _ => '0');
    if s == [] {
      assert z + s == z;
      ZerosValue(k);
    } else {
      var t := z + s;
      assert t[..|t| - 1] == z + s[..|s| - 1];
      DigitsValueLeadingZeros(k, s[..|s| - 1]);
    }
  }

  lemma {:induction false} ZerosValue(k: nat)
    ensures AllDigits(seq(k, _ => '0'))
    ensures DigitsValue(seq(k, _ => '0')) == 0
  {
    if k > 0 {
      var z := seq(k, _ => '0');
      assert z[..k - 1] == seq(k - 1, _ => '0');
      ZerosValue(k - 1);
    }
  }

  lemma LeadingDigitsOfDigits(s: string)
    requires AllDigits(s)
    ensures LeadingDigits(s) == s
  {
  }

  /** `parseInt` reads back a zero-padded `String(n)`: the round trip behind the
      five-digit ticket numbers and the two-digit groups. */
  lemma ParseIntPadded(n: nat, width: nat)
    ensures ParseInt(PadStart(NatDigits(n), width, '0')) == Some(n)
  {
    var d := NatDigits(n);
    var p := PadStart(d, width, '0');
    var k := |p| - |d|;
    assert p == seq(k, _ => '0') + d;
    DigitsValueLeadingZeros(k, d);
    LeadingDigitsOfDigits(p);
    DigitsValueOfNatDigits(n);
  }

  lemma {:induction false} NatDigitsInjective(m: nat, n: nat)
    requires NatDigits(m) == NatDigits(n)
    ensures m == n
  {
    DigitsValueOfNatDigits(m);
    DigitsValueOfNatDigits(n);
  }

  /** Numbers below 10^k have at most k digits. */
  lemma {:induction false} NatDigitsLength(n: nat, k: nat, bound: nat)
    requires bound == Pow10(k) && n < bound && k >= 1
    ensures |NatDigits(n)| <= k
    decreases k
  {
    if n >= 10 {
      assert Pow10(1) == 10;
      assert k >= 2;
      NatDigitsLength(n / 10, k - 1, Pow10(k - 1));
    }
  }

  function Pow10(k: nat): nat
  {
    if k == 0 then 1 else 10 * Pow10(k - 1)
  }

  /** The white space of `String.prototype.trim` and of the regular-expression class `\s`. */
  predicate IsJsSpace(c: char)
  {
    || c == '\t' || c == '\n' || c == '\U{000B}' || c == '\U{000C}' || c == '\r' || c == ' '
    || c == '\U{00A0}' || c == '\U{1680}' || ('\U{2000}' <= c <= '\U{200A}')
    || c == '\U{2028}' || c == '\U{2029}' || c == '\U{202F}' || c == '\U{205F}'
    || c == '\U{3000}' || c == '\U{FEFF}'
  }

  /** `s.trim()` is empty. */
  predicate IsBlank(s: string)
  {
    forall i :: 0 <= i < |s| ==> IsJsSpace(s[i])
  }

  /** `s.split(sep)` for a one-character separator. */
  function Split(s: string, sep: char): (r: seq<string>)
    ensures |r| >= 1
    ensures sep !in s ==> r == [s]
    decreases |s|
  {
    if sep !in s then [s]
    else
      var i := IndexOf(s, sep);
      [s[..i]] + Split(s[i + 1..], sep)
  }

  function IndexOf(s: string, c: char): (i: nat)
    requires c in s
    ensures i < |s| && s[i] == c && c !in s[..i]
  {
    if s[0] == c then 0 else 1 + IndexOf(s[1..], c)
  }

  /** Splitting three space-free fields joined by single spaces gives the fields back. */
  lemma SplitThree(a: string, b: string, c: string)
    requires ' ' !in a && ' ' !in b && ' ' !in c
    ensures Split(a + " " + b + " " + c, ' ') == [a, b, c]
  {
    var t := b + " " + c;
    assert a + " " + b + " " + c == a + " " + t;
    SplitJoined(b, c);
    assert Split(t, ' ') == [b, c];
    SplitJoined(a, t);
  }

  /** Splitting `x + " " + y` when `x` has no space: `x`, then the split of `y`. */
  lemma SplitJoined(x: string, y: string)
    requires ' ' !in x
    ensures Split(x + " " + y, ' ') == [x] + Split(y, ' ')
  {
    var s := x + " " + y;
    assert s[..|x|] == x && s[|x| + 1..] == y && s[|x|] == ' ';
    SplitAtFirst(s, |x|);
  }

  /** Splitting at the first separator. */
  lemma SplitAtFirst(s: string, k: nat)
    requires k < |s| && s[k] == ' ' && ' ' !in s[..k]
    ensures Split(s, ' ') == [s[..k]] + Split(s[k + 1..], ' ')
  {
    assert ' ' in s by {
      assert s[k] in s;
    }
    FirstPlaceUnique(s, ' ', IndexOf(s, ' '), k);
    SplitUnfold(s, k);
  }

  lemma SplitUnfold(s: string, k: nat)
    requires ' ' in s && k == IndexOf(s, ' ')
    ensures Split(s, ' ') == [s[..k]] + Split(s[k + 1..], ' ')
  {
  }

  /** Two places that each hold `c` with no `c` before them are the same place. */
  lemma FirstPlaceUnique(s: string, c: char, i: nat, k: nat)
    requires i < |s| && s[i] == c && c !in s[..i]
    requires k < |s| && s[k] == c && c !in s[..k]
    ensures i == k
  {
  }
}
