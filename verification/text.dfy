/** String helpers with Python's meaning: `sep.join`, `str.split`, `str.startswith`,
    `int(digits)` and `f"{n}"` for integers. */
module Text {

  /** `sep.join(parts)`. */
  function Join(sep: string, parts: seq<string>): (r: string)
    ensures parts == [] ==> r == ""
    ensures |parts| == 1 ==> r == parts[0]
  {
    if parts == [] then ""
    else if |parts| == 1 then parts[0]
    else Join(sep, parts[..|parts| - 1]) + sep + parts[|parts| - 1]
  }

  /** Appending one more part adds the separator and the part. */
  lemma JoinSnoc(sep: string, xs: seq<string>, x: string)
    requires xs != []
    ensures Join(sep, xs + [x]) == Join(sep, xs) + sep + x
  {
    var ys := xs + [x];
    assert ys[..|ys| - 1] == xs;
  }

  /** Joining two non-empty runs puts exactly one separator between them. */
  lemma {:induction false} JoinAppend(sep: string, a: seq<string>, b: seq<string>)
    requires a != [] && b != []
    ensures Join(sep, a + b) == Join(sep, a) + sep + Join(sep, b)
    decreases |b|
  {
    var last := b[|b| - 1];
    if |b| == 1 {
      assert b == [last];
      JoinSnoc(sep, a, last);
    } else {
      var b' := b[..|b| - 1];
      assert b == b' + [last];
      assert a + b == (a + b') + [last];
      JoinSnoc(sep, a + b', last);
      JoinSnoc(sep, b', last);
      JoinAppend(sep, a, b');
      calc {
        Join(sep, a + b);
        Join(sep, a + b') + sep + last;
        Join(sep, a) + sep + Join(sep, b') + sep + last;
        Join(sep, a) + sep + (Join(sep, b') + sep + last);
        Join(sep, a) + sep + Join(sep, b);
      }
    }
  }

  /** `JoinAppend` with the separator grouped with the second run. */
  lemma JoinAppendGrouped(sep: string, a: seq<string>, b: seq<string>)
    requires a != [] && b != []
    ensures Join(sep, a + b) == Join(sep, a) + (sep + Join(sep, b))
  {
    JoinAppend(sep, a, b);
  }

  predicate StartsWith(s: string, prefix: string) {
    |prefix| <= |s| && s[..|prefix|] == prefix
  }

  predicate EndsWith(s: string, suffix: string) {
    |suffix| <= |s| && s[|s| - |suffix|..] == suffix
  }

  /** The index of the first occurrence of `c` in `s`. */
  function FirstIndexOf(s: string, c: char): (k: nat)
    requires c in s
    ensures k < |s| && s[k] == c
    ensures forall i | 0 <= i < k :: s[i] != c
  {
    if s[0] == c then 0 else 1 + FirstIndexOf(s[1..], c)
  }

  /** The index of the last occurrence of `c` in `s`. */
  function LastIndexOf(s: string, c: char): (k: nat)
    requires c in s
    ensures k < |s| && s[k] == c
    ensures forall i | k < i < |s| :: s[i] != c
  {
    if s[|s| - 1] == c then |s| - 1 else LastIndexOf(s[..|s| - 1], c)
  }

  /** `s.split(c)` for a one-character separator: always at least one piece, none containing `c`. */
  function Split(s: string, c: char): (parts: seq<string>)
    ensures parts != []
    ensures forall p | p in parts :: c !in p
    decreases |s|
  {
    if c !in s then [s]
    else
      var k := LastIndexOf(s, c);
      assert c !in s[k + 1..];
      Split(s[..k], c) + [s[k + 1..]]
  }

  /** In `j + [c] + last` with `c` not in `last`, the last `c` is the one after `j`. */
  lemma LastSeparator(j: string, c: char, last: string)
    requires c !in last
    ensures c in j + [c] + last
    ensures LastIndexOf(j + [c] + last, c) == |j|
    ensures (j + [c] + last)[..|j|] == j && (j + [c] + last)[|j| + 1..] == last
  {
    var s := j + [c] + last;
    assert s[|j|] == c;
    forall i | |j| < i < |s| ensures s[i] != c {
      assert s[i] == last[i - |j| - 1];
      assert last[i - |j| - 1] in last;
    }
    assert s[..|j|] == j;
    assert s[|j| + 1..] == last;
  }

  /** Splitting a join on its one-character separator gives the parts back, provided no part
      contains the separator. */
  lemma {:induction false} SplitJoin(parts: seq<string>, c: char)
    requires parts != []
    requires forall p | p in parts :: c !in p
    ensures Split(Join([c], parts), c) == parts
    decreases |parts|
  {
    if |parts| > 1 {
      var init := parts[..|parts| - 1];
      var last := parts[|parts| - 1];
      assert parts == init + [last];
      JoinSnoc([c], init, last);
      var j := Join([c], init);
      assert last in parts;
      LastSeparator(j, c, last);
      assert forall p | p in init :: p in parts;
      SplitJoin(init, c);
      assert Split(j + [c] + last, c) == Split(j, c) + [last];
    }
  }

  predicate IsDigit(ch: char) {
    '0' <= ch <= '9'
  }

  predicate AllDigits(s: string) {
    forall i | 0 <= i < |s| :: IsDigit(s[i])
  }

  function DigitValue(ch: char): (d: nat)
    requires IsDigit(ch)
    ensures d < 10
  {
    ch as int - '0' as int
  }

  function DigitChar(d: nat): (ch: char)
    requires d < 10
    ensures IsDigit(ch) && DigitValue(ch) == d
  {
    ('0' as int + d) as char
  }

  /** `int(s)` for a run of decimal digits. */
  function DecimalValue(s: string): nat
    requires AllDigits(s)
  {
    if s == [] then 0 else DecimalValue(s[..|s| - 1]) * 10 + DigitValue(s[|s| - 1])
  }

  /** `f"{n}"` for a non-negative integer: its decimal digits without leading zeros. */
  function NatToDecimal(n: nat): (s: string)
    ensures s != [] && AllDigits(s)
    ensures |s| > 1 ==> s[0] != '0'
  {
    if n < 10 then [DigitChar(n)] else NatToDecimal(n / 10) + [DigitChar(n % 10)]
  }

  /** `f"{n}"` for any integer: a minus sign before the digits of a negative number. */
  function IntToDecimal(n: int): (s: string)
    ensures s != []
    ensures '[' !in s && ']' !in s
  {
    if n < 0 then "-" + NatToDecimal(-n) else NatToDecimal(n)
  }

  /** `int(f"{n}") == n`: printing and reading back are inverse. */
  lemma {:induction false} DecimalRoundTrip(n: nat)
    ensures DecimalValue(NatToDecimal(n)) == n
  {
    if n >= 10 {
      var s := NatToDecimal(n);
      assert s[..|s| - 1] == NatToDecimal(n / 10);
      DecimalRoundTrip(n / 10);
    }
  }

  /** `int` ignores leading zeros. */
  lemma {:induction false} LeadingZeroIgnored(s: string)
    requires AllDigits(s)
    ensures AllDigits("0" + s) && DecimalValue("0" + s) == DecimalValue(s)
    decreases |s|
  {
    if s != [] {
      var z := "0" + s;
      assert z[..|z| - 1] == "0" + s[..|s| - 1];
      LeadingZeroIgnored(s[..|s| - 1]);
    }
  }

  /** Distinct integers print differently. */
  lemma IntToDecimalInjective(a: int, b: int)
    requires IntToDecimal(a) == IntToDecimal(b)
    ensures a == b
  {
    if a < 0 && b < 0 {
      assert NatToDecimal(-a) == IntToDecimal(a)[1..] == NatToDecimal(-b);
      DecimalRoundTrip(-a);
      DecimalRoundTrip(-b);
    } else if a >= 0 && b >= 0 {
      DecimalRoundTrip(a);
      DecimalRoundTrip(b);
    }
  }
}
