/** The few string operations of Python that the gateway relies on. */
module PyText {
  import opened Wrappers

  /** `str.isspace` */
  predicate IsSpace(c: char) {
    var n := c as int;
    || 0x09 <= n <= 0x0d || 0x1c <= n <= 0x20 || n == 0x85 || n == 0xa0 || n == 0x1680
    || 0x2000 <= n <= 0x200a || n == 0x2028 || n == 0x2029 || n == 0x202f || n == 0x205f || n == 0x3000
  }

  function LStrip(s: string): string {
    if s != "" && IsSpace(s[0]) then LStrip(s[1..]) else s
  }

  function RStrip(s: string): string {
    if s != "" && IsSpace(s[|s| - 1]) then RStrip(s[..|s| - 1]) else s
  }

  /** `s.strip()` */
  function Strip(s: string): string {
    RStrip(LStrip(s))
  }

  predicate NoSpace(s: string) {
    forall i :: 0 <= i < |s| ==> !IsSpace(s[i])
  }

  predicate AllSpace(s: string) {
    forall i :: 0 <= i < |s| ==> IsSpace(s[i])
  }

  lemma {:induction false} LStripSplits(s: string) returns (a: string)
    ensures s == a + LStrip(s) && AllSpace(a)
    ensures LStrip(s) != "" ==> !IsSpace(LStrip(s)[0])
  {
    if s != "" && IsSpace(s[0]) {
      var rest := LStripSplits(s[1..]);
      a := [s[0]] + rest;
    } else {
      a := "";
    }
  }

  lemma {:induction false} RStripSplits(s: string) returns (b: string)
    ensures s == RStrip(s) + b && AllSpace(b)
    ensures RStrip(s) != "" ==> !IsSpace(RStrip(s)[|RStrip(s)| - 1]) && RStrip(s)[0] == s[0]
  {
    if s != "" && IsSpace(s[|s| - 1]) {
      var rest := RStripSplits(s[..|s| - 1]);
      b := rest + [s[|s| - 1]];
    } else {
      b := "";
    }
  }

  lemma {:induction false} LStripGap(a: string, t: string)
    requires AllSpace(a) && (t != "" ==> !IsSpace(t[0]))
    ensures LStrip(a + t) == t
  {
    if a != "" {
      LStripGap(a[1..], t);
      assert (a + t)[1..] == a[1..] + t;
    } else {
      assert a + t == t;
    }
  }

  lemma {:induction false} RStripGap(t: string, b: string)
    requires AllSpace(b) && (t != "" ==> !IsSpace(t[|t| - 1]))
    ensures RStrip(t + b) == t
  {
    if b != "" {
      RStripGap(t, b[..|b| - 1]);
      assert (t + b)[..|t + b| - 1] == t + b[..|b| - 1];
    } else {
      assert t + b == t;
    }
  }

  /** A text between white space, with none at its own ends. */
  predicate Padded(s: string, a: string, t: string, b: string) {
    && s == a + (t + b) && AllSpace(a) && AllSpace(b)
    && (t != "" ==> !IsSpace(t[0]) && !IsSpace(t[|t| - 1]))
  }

  /** Stripping takes off the white space around a text, all of it and nothing else. */
  lemma {:induction false} StripExact(s: string, t: string)
    ensures Strip(s) == t <==> exists a, b :: Padded(s, a, t, b)
  {
    if Strip(s) == t {
      var a := LStripSplits(s);
      var b := RStripSplits(LStrip(s));
      assert Padded(s, a, t, b);
    }
    if a, b :| Padded(s, a, t, b) {
      if t == "" {
        assert a + (t + b) == (a + b) + "";
        LStripGap(a + b, "");
      } else {
        LStripGap(a, t + b);
        RStripGap(t, b);
      }
    }
  }

  /** The characters that count as white space. */
  lemma SpaceTable(c: char)
    ensures IsSpace(c) <==>
              (c as int) in {0x09, 0x0a, 0x0b, 0x0c, 0x0d, 0x1c, 0x1d, 0x1e, 0x1f, 0x20, 0x85, 0xa0, 0x1680,
                             0x2000, 0x2001, 0x2002, 0x2003, 0x2004, 0x2005, 0x2006, 0x2007, 0x2008, 0x2009, 0x200a,
                             0x2028, 0x2029, 0x202f, 0x205f, 0x3000}
  {
  }

  function Find(s: string, sep: char): (i: nat)
    ensures i <= |s|
  {
    if s == "" || s[0] == sep then 0 else 1 + Find(s[1..], sep)
  }

  /** `s.split(sep, max)` */
  function Split(s: string, sep: char, max: nat): seq<string> {
    var i := Find(s, sep);
    if max == 0 || i == |s| then [s] else [s[..i]] + Split(s[i + 1..], sep, max - 1)
  }

  lemma {:induction false} FindFirst(a: string, sep: char, rest: string)
    requires sep !in a
    ensures Find(a + [sep] + rest, sep) == |a|
  {
    if a != "" {
      FindFirst(a[1..], sep, rest);
      assert (a + [sep] + rest)[1..] == a[1..] + [sep] + rest;
    }
  }

  /** A piece without the separator comes off the front unchanged. */
  lemma {:induction false} SplitFirst(a: string, sep: char, rest: string, max: nat)
    requires sep !in a && max > 0
    ensures Split(a + [sep] + rest, sep, max) == [a] + Split(rest, sep, max - 1)
  {
    var s := a + [sep] + rest;
    FindFirst(a, sep, rest);
    assert s[..|a|] == a && s[|a| + 1..] == rest;
  }

  lemma {:induction false} SplitLast(a: string, sep: char)
    ensures Split(a, sep, 0) == [a]
  {
  }

  /** `a sep b sep c`, whatever else the last piece holds. */
  lemma {:induction false} SplitThree(a: string, b: string, c: string, sep: char)
    requires sep !in a && sep !in b
    ensures Split(a + [sep] + (b + [sep] + c), sep, 2) == [a, b, c]
  {
    SplitFirst(a, sep, b + [sep] + c, 2);
    SplitFirst(b, sep, c, 1);
    SplitLast(c, sep);
  }

  lemma {:induction false} SplitFour(a: string, b: string, c: string, d: string, sep: char)
    requires sep !in a && sep !in b && sep !in c
    ensures Split(a + [sep] + (b + [sep] + (c + [sep] + d)), sep, 3) == [a, b, c, d]
  {
    SplitFirst(a, sep, b + [sep] + (c + [sep] + d), 3);
    SplitFirst(b, sep, c + [sep] + d, 2);
    SplitFirst(c, sep, d, 1);
    SplitLast(d, sep);
  }

  lemma {:induction false} FindBefore(s: string, sep: char)
    ensures sep !in s[..Find(s, sep)]
    ensures Find(s, sep) < |s| ==> s == s[..Find(s, sep)] + [sep] + s[Find(s, sep) + 1..]
  {
    if s != "" && s[0] != sep {
      FindBefore(s[1..], sep);
      assert s[..Find(s, sep)] == [s[0]] + s[1..][..Find(s[1..], sep)];
    }
  }

  /** Three pieces are what is before the first separator, between it and the second, and after that. */
  lemma {:induction false} ThreePieces(s: string, sep: char)
    requires |Split(s, sep, 2)| == 3
    ensures var p := Split(s, sep, 2);
            s == p[0] + [sep] + (p[1] + [sep] + p[2]) && sep !in p[0] && sep !in p[1]
  {
    var i := Find(s, sep);
    var rest := s[i + 1..];
    FindBefore(s, sep);
    FindBefore(rest, sep);
    SplitLast(rest[Find(rest, sep) + 1..], sep);
  }

  /** Four pieces likewise. */
  lemma {:induction false} FourPieces(s: string, sep: char)
    requires |Split(s, sep, 3)| == 4
    ensures var p := Split(s, sep, 3);
            s == p[0] + [sep] + (p[1] + [sep] + (p[2] + [sep] + p[3])) && sep !in p[0] && sep !in p[1] && sep !in p[2]
  {
    FindBefore(s, sep);
    ThreePieces(s[Find(s, sep) + 1..], sep);
  }

  predicate IsDigit(c: char) {
    '0' <= c <= '9'
  }

  /** Decimal digits, single underscores allowed between them. */
  function ParseDigits(s: string): Option<int> {
    if s == "" || !IsDigit(s[|s| - 1]) then None
    else
      var n := |s| - 1;
      var d := (s[n] - '0') as int;
      if n == 0 then Some(d)
      else
        match ParseDigits(if n >= 2 && s[n - 1] == '_' then s[..n - 1] else s[..n])
        case Some(v) => Some(v * 10 + d)
        case None => None
  }

  /** `int(s)` on text; `None` stands for the ValueError. */
  function ParseInt(s: string): Option<int> {
    var t := Strip(s);
    if t != "" && (t[0] == '-' || t[0] == '+') then
      match ParseDigits(t[1..])
      case Some(v) => if t[0] == '-' then Some(-v) else Some(v)
      case None => None
    else
      match ParseDigits(t)
      case Some(v) => Some(v)
      case None => None
  }

  /** Digits, with single underscores between them. */
  predicate DigitText(s: string) {
    && s != "" && IsDigit(s[0]) && IsDigit(s[|s| - 1])
    && (forall i :: 0 <= i < |s| ==> IsDigit(s[i]) || s[i] == '_')
    && (forall i :: 0 < i < |s| ==> IsDigit(s[i - 1]) || IsDigit(s[i]))
  }

  lemma {:induction false} DigitsExact(s: string)
    ensures ParseDigits(s).Some? <==> DigitText(s)
    ensures ParseDigits(s).Some? ==> ParseDigits(s).value >= 0
  {
    if s != "" && IsDigit(s[|s| - 1]) && |s| > 1 {
      var n := |s| - 1;
      var rest := if n >= 2 && s[n - 1] == '_' then s[..n - 1] else s[..n];
      DigitsExact(rest);
      if DigitText(rest) {
        assert forall i :: 0 <= i < |rest| ==> s[i] == rest[i];
        assert IsDigit(s[|rest| - 1]);
      }
      if DigitText(s) && s[n - 1] == '_' {
        assert IsDigit(s[n - 2]);
      }
    }
  }

  function WithoutUnderscores(s: string): string {
    if s == "" then ""
    else
      var n := |s| - 1;
      WithoutUnderscores(s[..n]) + if s[n] == '_' then "" else [s[n]]
  }

  /** A text without its last digit, and the underscore before it if there is one. */
  function Shorter(s: string): string
    requires |s| > 1
  {
    var n := |s| - 1;
    if n >= 2 && s[n - 1] == '_' then s[..n - 1] else s[..n]
  }

  lemma {:induction false} ShorterDigits(s: string)
    requires DigitText(s) && |s| > 1
    ensures DigitText(Shorter(s))
    ensures WithoutUnderscores(s) == WithoutUnderscores(Shorter(s)) + [s[|s| - 1]]
  {
    var n := |s| - 1;
    DigitsExact(s);
    DigitsExact(Shorter(s));
    if s[n - 1] == '_' {
      assert s[..n][..n - 1] == Shorter(s);
    }
  }

  /** Underscores do not change the number. */
  lemma {:induction false} UnderscoresIgnored(s: string)
    requires DigitText(s)
    ensures ParseDigits(s) == ParseDigits(WithoutUnderscores(s))
    ensures WithoutUnderscores(s) != "" && '_' !in WithoutUnderscores(s)
  {
    if |s| > 1 {
      var rest := WithoutUnderscores(Shorter(s));
      ShorterDigits(s);
      UnderscoresIgnored(Shorter(s));
      assert (rest + [s[|s| - 1]])[..|rest|] == rest;
    }
  }

  /** A number in decimal. */
  function Decimal(n: nat): (s: string)
    ensures s != ""
  {
    (if n < 10 then [] else Decimal(n / 10)) + ['0' + (n % 10) as char]
  }

  lemma {:induction false} DecimalParses(n: nat)
    ensures ParseDigits(Decimal(n)) == Some(n)
    ensures NoSpace(Decimal(n)) && (forall i :: 0 <= i < |Decimal(n)| ==> IsDigit(Decimal(n)[i]))
  {
    var s := Decimal(n);
    if n >= 10 {
      DecimalParses(n / 10);
      assert s[..|s| - 1] == Decimal(n / 10);
      assert s[|s| - 2] == Decimal(n / 10)[|s| - 2];
    }
  }

  /** `int` of a number in decimal, with a sign or without, between white space. */
  lemma {:induction false} IntOfDecimal(n: nat, a: string, b: string)
    requires AllSpace(a) && AllSpace(b)
    ensures ParseInt(a + (Decimal(n) + b)) == Some(n)
    ensures ParseInt(a + ("+" + Decimal(n) + b)) == Some(n)
    ensures ParseInt(a + ("-" + Decimal(n) + b)) == Some(-(n as int))
  {
    var s := Decimal(n);
    DecimalParses(n);
    assert Padded(a + (s + b), a, s, b);
    assert Padded(a + ("+" + s + b), a, "+" + s, b) && ("+" + s)[1..] == s;
    assert Padded(a + ("-" + s + b), a, "-" + s, b) && ("-" + s)[1..] == s;
    StripExact(a + (s + b), s);
    StripExact(a + ("+" + s + b), "+" + s);
    StripExact(a + ("-" + s + b), "-" + s);
  }

  /** `str` of an integer. */
  function IntText(v: int): string {
    if v < 0 then "-" + Decimal(-v) else Decimal(v)
  }

  lemma {:induction false} IntOfText(v: int)
    ensures ParseInt(IntText(v)) == Some(v)
  {
    var n: nat := if v < 0 then -v else v;
    IntOfDecimal(n, "", "");
    assert "" + ("-" + Decimal(n) + "") == "-" + Decimal(n);
    assert "" + (Decimal(n) + "") == Decimal(n);
  }

  /** `int` has a value for nothing but digits, with a sign or without, between white space. */
  lemma {:induction false} IntExact(s: string)
    ensures ParseInt(s).Some? <==>
              DigitText(Strip(s)) || (Strip(s) != "" && Strip(s)[0] in {'-', '+'} && DigitText(Strip(s)[1..]))
  {
    var t := Strip(s);
    DigitsExact(t);
    if t != "" {
      DigitsExact(t[1..]);
    }
  }

  /** `s.lower()` as far as a comparison with an all-ASCII word without `k` can tell. */
  function Lower(s: string): string {
    seq(|s|, i requires 0 <= i < |s| => if 'A' <= s[i] <= 'Z' then s[i] - 'A' + 'a' else s[i])
  }

  const UPPER := "ABCDEFGHIJKLMNOPQRSTUVWXYZ"
  const LOWER := "abcdefghijklmnopqrstuvwxyz"

  /** Each letter of the one alphabet becomes its counterpart in the other, and nothing else changes. */
  lemma {:induction false} LowerExact(s: string, i: nat)
    requires i < |s|
    ensures |Lower(s)| == |s|
    ensures forall k :: 0 <= k < 26 && s[i] == UPPER[k] ==> Lower(s)[i] == LOWER[k]
    ensures s[i] !in UPPER ==> Lower(s)[i] == s[i]
  {
    assert |UPPER| == |LOWER| == 26;
    assert forall k :: 0 <= k < 26 ==> UPPER[k] == 'A' + k as char && LOWER[k] == 'a' + k as char;
    if 'A' <= s[i] <= 'Z' {
      var k := (s[i] - 'A') as int;
      assert s[i] == UPPER[k];
    }
  }
}
