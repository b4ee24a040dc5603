/**
 * The text the converter produces: Python's `str` of an integer (what the
 * f-strings do to image and category ids), `"\n".join`, which is what the
 * sequence of "w" and "a" writes leaves in a label file, and its inverse
 * `str.split("\n")`, the way a reader of a label file gets its lines back.
 */
module Text {

  predicate IsDigit(c: char) { '0' <= c <= '9' }

  predicate NoNewline(s: string) { forall i :: 0 <= i < |s| ==> s[i] != '\n' }

  /** The decimal digits of `n`, most significant first, without leading zeros. */
  function Digits(n: nat): (s: string)
    ensures |s| >= 1
    ensures forall i :: 0 <= i < |s| ==> IsDigit(s[i])
    decreases n
  {
    var d := ['0' + (n % 10) as char];
    if n < 10 then d else Digits(n / 10) + d
  }

  /** The digits have no leading zero: only `0` itself starts with `'0'`. */
  lemma {:induction false} DigitsNoLeadingZero(n: nat)
    ensures n >= 10 ==> Digits(n)[0] != '0'
    ensures n < 10 ==> Digits(n) == ['0' + n as char]
    decreases n
  {
    if n >= 10 {
      DigitsNoLeadingZero(n / 10);
      assert Digits(n)[0] == Digits(n / 10)[0];
    }
  }

  /** Python's `str(n)` (equivalently `f'{n}'`) for an integer `n`. */
  function Decimal(n: int): string
  {
    if n < 0 then "-" + Digits(-n) else Digits(n)
  }

  /** The value of a non-empty string of decimal digits. */
  function DigitsValue(s: string): nat
    requires forall i :: 0 <= i < |s| ==> IsDigit(s[i])
  {
    if s == [] then 0
    else
      var c := s[|s| - 1];
      assert IsDigit(c);
      DigitsValue(s[..|s| - 1]) * 10 + (c as int - '0' as int)
  }

  /** Python's `int(s)` on the strings `Decimal` produces. */
  function ParseDecimal(s: string): int
    requires |s| >= 1
    requires forall i :: 0 < i < |s| ==> IsDigit(s[i])
    requires s[0] == '-' || IsDigit(s[0])
  {
    if s[0] == '-' then -(DigitsValue(s[1..]) as int) else DigitsValue(s)
  }

  lemma {:induction false} DigitsRoundTrip(n: nat)
    ensures DigitsValue(Digits(n)) == n
    decreases n
  {
    if n >= 10 {
      DigitsRoundTrip(n / 10);
      var s := Digits(n);
      assert s[..|s| - 1] == Digits(n / 10);
    }
  }

  /** `int(str(n)) == n`: formatting an integer loses nothing. */
  lemma DecimalRoundTrip(n: int)
    ensures var s := Decimal(n);
      |s| >= 1 && (s[0] == '-' || IsDigit(s[0])) && (forall i :: 0 < i < |s| ==> IsDigit(s[i]))
      && ParseDecimal(s) == n
  {
    var s := Decimal(n);
    if n < 0 {
      assert s[1..] == Digits(-n);
      DigitsRoundTrip(-n);
    } else {
      DigitsRoundTrip(n);
    }
  }

  /** Distinct integers print differently, so distinct image ids get distinct file names. */
  lemma DecimalInjective(a: int, b: int)
    requires Decimal(a) == Decimal(b)
    ensures a == b
  {
    DecimalRoundTrip(a);
    DecimalRoundTrip(b);
  }

  lemma DecimalNoNewline(n: int)
    ensures NoNewline(Decimal(n))
  {
    var s := Decimal(n);
    if n < 0 {
      assert forall i :: 1 <= i < |s| ==> s[i] == Digits(-n)[i - 1];
    }
  }

  lemma NoNewlineConcat(a: string, b: string)
    requires NoNewline(a) && NoNewline(b)
    ensures NoNewline(a + b)
  {
    forall i | 0 <= i < |a + b| ensures (a + b)[i] != '\n' {
      if i >= |a| { assert (a + b)[i] == b[i - |a|]; }
    }
  }

  /** Python's `"\n".join(lines)`. */
  function Join(lines: seq<string>): string
  {
    if |lines| == 0 then ""
    else if |lines| == 1 then lines[0]
    else lines[0] + "\n" + Join(lines[1..])
  }

  /** Appending "\n" and one more line to a joined text joins one more line. */
  lemma {:induction false} JoinSnoc(lines: seq<string>, x: string)
    requires |lines| >= 1
    ensures Join(lines + [x]) == Join(lines) + "\n" + x
    decreases |lines|
  {
    if |lines| > 1 {
      assert (lines + [x])[1..] == lines[1..] + [x];
      JoinSnoc(lines[1..], x);
    } else {
      assert (lines + [x])[1..] == [x];
    }
  }

  /** Python's `s.split("\n")`. */
  function Split(s: string): (r: seq<string>)
    ensures |r| >= 1
    decreases |s|
  {
    if s == "" then [""]
    else
      var rest := Split(s[1..]);
      if s[0] == '\n' then [""] + rest
      else [[s[0]] + rest[0]] + rest[1..]
  }

  lemma {:induction false} SplitLine(a: string)
    requires NoNewline(a)
    ensures Split(a) == [a]
    decreases |a|
  {
    if a != "" {
      SplitLine(a[1..]);
      assert [a[0]] + a[1..] == a;
    }
  }

  lemma {:induction false} SplitFirstLine(a: string, t: string)
    requires NoNewline(a)
    ensures Split(a + "\n" + t) == [a] + Split(t)
    decreases |a|
  {
    var s := a + "\n" + t;
    if a == "" {
      assert s[1..] == t;
    } else {
      assert s[1..] == a[1..] + "\n" + t;
      SplitFirstLine(a[1..], t);
      assert [a[0]] + a[1..] == a;
    }
  }

  /** Reading a label file back line by line gives exactly the lines written into it. */
  lemma {:induction false} SplitJoin(lines: seq<string>)
    requires |lines| >= 1
    requires forall i :: 0 <= i < |lines| ==> NoNewline(lines[i])
    ensures Split(Join(lines)) == lines
    decreases |lines|
  {
    if |lines| == 1 {
      SplitLine(lines[0]);
    } else {
      SplitFirstLine(lines[0], Join(lines[1..]));
      SplitJoin(lines[1..]);
    }
  }
}
