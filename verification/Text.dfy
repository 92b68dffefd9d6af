// The string operations the source relies on: lexicographic order, str(int), int(str),
// strip, splitlines()[-1], and ASCII case mapping.
module Text {
  import opened Common
  import opened Ordering

  // ---------- order

  predicate StrLe(a: string, b: string) {
    a == "" || (b != "" && (a[0] < b[0] || (a[0] == b[0] && StrLe(a[1..], b[1..]))))
  }

  lemma {:induction false} StrLeTrans(a: string, b: string, c: string)
    requires StrLe(a, b) && StrLe(b, c)
    ensures StrLe(a, c)
  {
    if a != "" && a[0] == b[0] && b[0] == c[0] {
      StrLeTrans(a[1..], b[1..], c[1..]);
    }
  }

  lemma {:induction false} StrLeTotality(a: string, b: string)
    ensures StrLe(a, b) || StrLe(b, a)
    ensures StrLe(a, b) && StrLe(b, a) ==> a == b
    ensures StrLe(a, a)
  {
    if a != "" && b != "" {
      StrLeTotality(a[1..], b[1..]);
      if a[0] == b[0] {
        assert a == [a[0]] + a[1..] && b == [b[0]] + b[1..];
      }
    } else if a != "" {
      StrLeTotality(a[1..], "");
    }
  }

  lemma StrLeTotal()
    ensures TotalOrder(StrLe)
  {
    forall x, y {
      StrLeTotality(x, y);
    }
    forall x, y, z | StrLe(x, y) && StrLe(y, z)
      ensures StrLe(x, z)
    {
      StrLeTrans(x, y, z);
    }
  }

  // Keys that share a prefix sort by what follows it.
  lemma {:induction false} StrLePrefixed(p: string, a: string, b: string)
    ensures StrLe(p + a, p + b) == StrLe(a, b)
  {
    if p == "" {
      assert p + a == a && p + b == b;
    } else {
      assert (p + a)[1..] == p[1..] + a && (p + b)[1..] == p[1..] + b;
      StrLePrefixed(p[1..], a, b);
    }
  }

  // ---------- decimal text

  predicate IsDigit(c: char) { '0' <= c <= '9' }

  function DigitChar(d: nat): char
    requires d < 10
  {
    '0' + d as char
  }

  function DigitValue(c: char): nat
    requires IsDigit(c)
  {
    (c - '0') as nat
  }

  // str(n) for a non-negative int.
  function Decimal(n: nat): string {
    if n < 10 then [DigitChar(n)] else Decimal(n / 10) + [DigitChar(n % 10)]
  }

  // str(n).
  function IntText(n: int): string {
    if n < 0 then "-" + Decimal(-n) else Decimal(n)
  }

  // The digits of an int literal: single underscores may stand between two digits.
  function DigitRun(s: string): Option<nat> {
    if s == "" || !IsDigit(s[|s| - 1]) then None
    else
      var d := DigitValue(s[|s| - 1]);
      if |s| == 1 then Some(d)
      else
        match DigitRun(if s[|s| - 2] == '_' then s[..|s| - 2] else s[..|s| - 1])
        case None => None
        case Some(v) => Some(v * 10 + d)
  }

  // int(s): surrounding white space, an optional sign, then digits. None models ValueError.
  function PyInt(s: string): Option<int> {
    var t := Strip(s);
    if t == "" then None
    else if t[0] == '-' then
      match DigitRun(t[1..]) case None => None case Some(v) => Some(-(v as int))
    else if t[0] == '+' then
      match DigitRun(t[1..]) case None => None case Some(v) => Some(v)
    else
      match DigitRun(t) case None => None case Some(v) => Some(v)
  }

  lemma {:induction false} DecimalDigits(n: nat)
    ensures |Decimal(n)| > 0
    ensures forall i | 0 <= i < |Decimal(n)| :: IsDigit(Decimal(n)[i])
    ensures DigitRun(Decimal(n)) == Some(n)
  {
    if n >= 10 {
      DecimalDigits(n / 10);
      var s := Decimal(n);
      assert s[..|s| - 1] == Decimal(n / 10);
      assert s[|s| - 2] == Decimal(n / 10)[|s| - 2];
    }
  }

  // int(str(n)) == n.
  lemma IntRoundTrip(n: int)
    ensures PyInt(IntText(n)) == Some(n)
  {
    var m: nat := if n < 0 then -n else n;
    DecimalDigits(m);
    var s := IntText(n);
    StripFixed(s);
    if n < 0 {
      assert s[1..] == Decimal(m);
    }
  }

  lemma DecimalInjective(m: nat, n: nat)
    requires Decimal(m) == Decimal(n)
    ensures m == n
  {
    DecimalDigits(m);
    DecimalDigits(n);
  }

  // ---------- white space

  predicate IsSpace(c: char) {
    var n := c as int;
    9 <= n <= 13 || 28 <= n <= 32 || n == 0x85 || n == 0xA0 || n == 0x1680 || 0x2000 <= n <= 0x200A
    || n == 0x2028 || n == 0x2029 || n == 0x202F || n == 0x205F || n == 0x3000
  }

  predicate IsLineBreak(c: char) {
    var n := c as int;
    10 <= n <= 13 || 28 <= n <= 30 || n == 0x85 || n == 0x2028 || n == 0x2029
  }

  function LStrip(s: string): string {
    if s != "" && IsSpace(s[0]) then LStrip(s[1..]) else s
  }

  function RStrip(s: string): string {
    if s != "" && IsSpace(s[|s| - 1]) then RStrip(s[..|s| - 1]) else s
  }

  // str.strip()
  function Strip(s: string): string { RStrip(LStrip(s)) }

  predicate Trimmed(s: string) {
    s == "" || (!IsSpace(s[0]) && !IsSpace(s[|s| - 1]))
  }

  lemma {:induction false} LStripTrims(s: string)
    ensures LStrip(s) == "" || !IsSpace(LStrip(s)[0])
  {
    if s != "" && IsSpace(s[0]) {
      LStripTrims(s[1..]);
    }
  }

  lemma {:induction false} RStripTrims(s: string)
    ensures RStrip(s) <= s
    ensures RStrip(s) == "" || !IsSpace(RStrip(s)[|RStrip(s)| - 1])
  {
    if s != "" && IsSpace(s[|s| - 1]) {
      RStripTrims(s[..|s| - 1]);
    }
  }

  lemma StripTrims(s: string)
    ensures Trimmed(Strip(s))
  {
    LStripTrims(s);
    RStripTrims(LStrip(s));
  }

  // Only white space at the two ends is taken off.
  lemma StripMeaning(s: string) returns (a: string, b: string)
    ensures s == a + Strip(s) + b && (forall c | c in a + b :: IsSpace(c)) && Trimmed(Strip(s))
  {
    StripTrims(s);
    a := LStripTakes(s);
    b := RStripTakes(LStrip(s));
  }

  lemma {:induction false} LStripTakes(s: string) returns (a: string)
    ensures s == a + LStrip(s) && forall c | c in a :: IsSpace(c)
  {
    if s != "" && IsSpace(s[0]) {
      a := LStripTakes(s[1..]);
      a := [s[0]] + a;
    } else {
      a := "";
    }
  }

  lemma {:induction false} RStripTakes(s: string) returns (b: string)
    ensures s == RStrip(s) + b && forall c | c in b :: IsSpace(c)
  {
    if s != "" && IsSpace(s[|s| - 1]) {
      b := RStripTakes(s[..|s| - 1]);
      b := b + [s[|s| - 1]];
    } else {
      b := "";
    }
  }

  lemma {:induction false} LStripSpaces(a: string, rest: string)
    requires (forall c | c in a :: IsSpace(c)) && (rest == "" || !IsSpace(rest[0]))
    ensures LStrip(a + rest) == rest
  {
    if a == "" {
      assert a + rest == rest;
    } else {
      assert (a + rest)[1..] == a[1..] + rest;
      LStripSpaces(a[1..], rest);
    }
  }

  lemma {:induction false} RStripSpaces(rest: string, b: string)
    requires (forall c | c in b :: IsSpace(c)) && (rest == "" || !IsSpace(rest[|rest| - 1]))
    ensures RStrip(rest + b) == rest
    decreases |b|
  {
    if b == "" {
      assert rest + b == rest;
    } else {
      var n := |b| - 1;
      assert (rest + b)[..|rest + b| - 1] == rest + b[..n];
      RStripSpaces(rest, b[..n]);
    }
  }

  // The only trimmed text left when white space is taken off the ends.
  lemma StripIs(a: string, t: string, b: string)
    requires Trimmed(t) && (forall c | c in a :: IsSpace(c)) && (forall c | c in b :: IsSpace(c))
    ensures Strip(a + t + b) == t
  {
    if t == "" {
      assert a + t + b == (a + b) + "";
      LStripSpaces(a + b, "");
    } else {
      assert a + t + b == a + (t + b);
      LStripSpaces(a, t + b);
      RStripSpaces(t, b);
    }
  }

  lemma StripFixed(s: string)
    requires Trimmed(s)
    ensures Strip(s) == s
  {
  }

  // s.splitlines()[-1] for a non-empty s that does not end in a line break.
  function LastLine(s: string): string {
    if s == "" then ""
    else if IsLineBreak(s[|s| - 1]) then ""
    else LastLine(s[..|s| - 1]) + [s[|s| - 1]]
  }

  lemma {:induction false} LastLineFixed(s: string)
    requires forall i | 0 <= i < |s| :: !IsLineBreak(s[i])
    ensures LastLine(s) == s
  {
    if s != "" {
      LastLineFixed(s[..|s| - 1]);
    }
  }

  // ---------- case

  function UpperChar(c: char): char { if 'a' <= c <= 'z' then c - 32 as char else c }

  function LowerChar(c: char): char { if 'A' <= c <= 'Z' then c + 32 as char else c }

  function Upper(s: string): (r: string)
    ensures |r| == |s|
  {
    seq(|s|, i requires 0 <= i < |s| => UpperChar(s[i]))
  }

  function Lower(s: string): (r: string)
    ensures |r| == |s|
  {
    seq(|s|, i requires 0 <= i < |s| => LowerChar(s[i]))
  }

  function Join(sep: string, xs: seq<string>): string {
    if xs == [] then "" else if |xs| == 1 then xs[0] else xs[0] + sep + Join(sep, xs[1..])
  }
}
