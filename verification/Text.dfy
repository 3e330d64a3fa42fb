/**
 Delimited text and decimal numbers: splitting, joining, printing and parsing as the
 collector and the archiver use them.
 */
module Text {
  import opened Prelude

  /** The pieces of `s` between occurrences of `c`; at least one, possibly empty. */
  function Split(s: string, c: char): (parts: seq<string>)
    ensures parts != []
  {
    if s == "" then [""]
    else
      var rest := Split(s[1..], c);
      if s[0] == c then [""] + rest else [[s[0]] + rest[0]] + rest[1..]
  }

  function Join(parts: seq<string>, c: char): string {
    if parts == [] then ""
    else if |parts| == 1 then parts[0]
    else parts[0] + [c] + Join(parts[1..], c)
  }

  function Count(s: string, c: char): nat {
    if s == "" then 0 else (if s[0] == c then 1 else 0) + Count(s[1..], c)
  }

  lemma {:induction false} CountConcat(a: string, b: string, c: char)
    ensures Count(a + b, c) == Count(a, c) + Count(b, c)
  {
    if a == "" {
      assert a + b == b;
    } else {
      assert (a + b)[1..] == a[1..] + b;
      CountConcat(a[1..], b, c);
    }
  }

  lemma {:induction false} CountZero(s: string, c: char)
    ensures Count(s, c) == 0 <==> c !in s
  {
    if s != "" {
      CountZero(s[1..], c);
      assert s == [s[0]] + s[1..];
    }
  }

  lemma {:induction false} SplitCount(s: string, c: char)
    ensures |Split(s, c)| == 1 + Count(s, c)
  {
    if s != "" {
      SplitCount(s[1..], c);
    }
  }

  lemma {:induction false} SplitWhole(p: string, c: char)
    requires c !in p
    ensures Split(p, c) == [p]
  {
    if p != "" {
      SplitWhole(p[1..], c);
      assert p == [p[0]] + p[1..];
    }
  }

  lemma {:induction false} SplitFirst(p: string, rest: string, c: char)
    requires c !in p
    ensures Split(p + [c] + rest, c) == [p] + Split(rest, c)
  {
    if p == "" {
      assert ("" + [c] + rest)[1..] == rest;
    } else {
      var s := p + [c] + rest;
      assert s[1..] == p[1..] + [c] + rest;
      SplitFirst(p[1..], rest, c);
      assert p == [p[0]] + p[1..];
    }
  }

  /** Splitting undoes joining when no part contains the delimiter. */
  lemma {:induction false} SplitJoin(parts: seq<string>, c: char)
    requires parts != [] && forall p :: p in parts ==> c !in p
    ensures Split(Join(parts, c), c) == parts
  {
    assert c !in parts[0];
    if |parts| == 1 {
      SplitWhole(parts[0], c);
    } else {
      SplitJoin(parts[1..], c);
      SplitFirst(parts[0], Join(parts[1..], c), c);
      assert parts == [parts[0]] + parts[1..];
    }
  }

  /** And joining undoes splitting, always. */
  lemma {:induction false} JoinSplit(s: string, c: char)
    ensures Join(Split(s, c), c) == s
  {
    if s != "" {
      JoinSplit(s[1..], c);
      var rest := Split(s[1..], c);
      if s[0] == c {
        assert ([""] + rest)[1..] == rest;
        assert s == [c] + s[1..];
      } else {
        var parts := [[s[0]] + rest[0]] + rest[1..];
        assert parts[1..] == rest[1..];
        assert s == [s[0]] + s[1..];
      }
    }
  }

  /** Splitting a join gives as many pieces as were joined only if no part contains the
      delimiter. */
  lemma {:induction false} JoinCount(parts: seq<string>, c: char)
    requires parts != []
    ensures Count(Join(parts, c), c) >= |parts| - 1
    ensures Count(Join(parts, c), c) == |parts| - 1 <==> forall p :: p in parts ==> c !in p
  {
    CountZero(parts[0], c);
    if |parts| > 1 {
      var rest := Join(parts[1..], c);
      JoinCount(parts[1..], c);
      CountConcat(parts[0] + [c], rest, c);
      CountConcat(parts[0], [c], c);
      assert [c][1..] == "";
      assert parts == [parts[0]] + parts[1..];
    }
  }

  lemma {:induction false} JoinContains(parts: seq<string>, c: char, d: char)
    requires c != d
    ensures d in Join(parts, c) <==> exists p :: p in parts && d in p
  {
    if |parts| > 1 {
      JoinContains(parts[1..], c, d);
      assert parts == [parts[0]] + parts[1..];
      assert d in Join(parts, c) <==> d in parts[0] || d in Join(parts[1..], c);
    }
  }

  // ----- Decimal numbers

  function Digit(d: nat): char
    requires d < 10
  {
    '0' + d as char
  }

  predicate IsDigit(c: char) { '0' <= c <= '9' }

  function DigitValue(c: char): nat
    requires IsDigit(c)
  {
    (c - '0') as nat
  }

  function PrintNat(n: nat): string {
    if n < 10 then [Digit(n)] else PrintNat(n / 10) + [Digit(n % 10)]
  }

  function PrintInt(i: int): string {
    if i < 0 then "-" + PrintNat(-i) else PrintNat(i)
  }

  /** The value of a non-empty string of digits. */
  function Value(s: string): Option<nat> {
    if s == "" then None
    else if !IsDigit(s[|s| - 1]) then None
    else if |s| == 1 then Some(DigitValue(s[0]))
    else
      var v := Value(s[..|s| - 1]);
      if v.None? then None else Some(10 * v.value + DigitValue(s[|s| - 1]))
  }

  /** Parsing into an unsigned type: an optional plus sign, then digits, within bound. */
  function ParseUnsigned(s: string, max: nat): Option<nat> {
    var v := Value(if s != "" && s[0] == '+' then s[1..] else s);
    if v.Some? && v.value <= max then v else None
  }

  const MAX_I64: int := 0x7FFF_FFFF_FFFF_FFFF

  function ParseI64(s: string): Option<int> {
    if s != "" && s[0] == '-' then
      var v := Value(s[1..]);
      if v.Some? && v.value <= MAX_I64 + 1 then (var i: int := 0 - v.value; Some(i)) else None
    else
      var v := ParseUnsigned(s, MAX_I64);
      if v.Some? then Some(v.value) else None
  }

  lemma {:induction false} PrintNatDigits(n: nat)
    ensures PrintNat(n) != "" && forall c :: c in PrintNat(n) ==> IsDigit(c)
    ensures Value(PrintNat(n)) == Some(n)
  {
    if n >= 10 {
      PrintNatDigits(n / 10);
      var s := PrintNat(n);
      assert s[..|s| - 1] == PrintNat(n / 10);
    }
  }

  function Pow10(n: nat): nat {
    if n == 0 then 1 else 10 * Pow10(n - 1)
  }

  /** Exactly the non-empty strings of digits have a value. */
  lemma {:induction false} ValueIff(s: string)
    ensures Value(s).Some? <==> s != "" && forall i :: 0 <= i < |s| ==> '0' <= s[i] <= '9'
  {
    if |s| > 1 {
      var n := |s| - 1;
      ValueIff(s[..n]);
      assert forall i :: 0 <= i < n ==> s[..n][i] == s[i];
    }
  }

  lemma ValueSnoc(s: string, c: char)
    requires Value(s).Some? && '0' <= c <= '9'
    ensures Value(s + [c]) == Some(10 * Value(s).value + (c - '0') as nat)
  {
    assert (s + [c])[..|s|] == s;
  }

  /** It is the decimal one: a digit stands for its distance from '0', and digits put in
      front count ten times as much for every digit behind them. */
  lemma {:induction false} ValueIsDecimal(a: string, b: string)
    requires Value(a).Some? && Value(b).Some?
    ensures |b| == 1 ==> '0' <= b[0] <= '9' && Value(b).value == (b[0] - '0') as nat
    ensures Value(a + b) == Some(Value(a).value * Pow10(|b|) + Value(b).value)
  {
    var n := |b| - 1;
    if n == 0 {
      assert b == [b[0]];
      ValueSnoc(a, b[0]);
    } else {
      ValueIsDecimal(a, b[..n]);
      ValueSnoc(a + b[..n], b[n]);
      assert (a + b[..n]) + [b[n]] == a + b;
      TimesTen(Value(a).value, Pow10(n));
      assert Pow10(|b|) == 10 * Pow10(n);
      hide Value, Pow10;
    }
  }

  lemma TimesTen(v: nat, p: nat)
    ensures 10 * (v * p) == v * (10 * p)
  {
  }

  /** What is accepted as a number of an unsigned type, and of a signed 64-bit one. */
  lemma ParsesIff(s: string, max: nat, n: nat, i: int)
    ensures ParseUnsigned(s, max) == Some(n) <==>
            n <= max && (Value(s) == Some(n) || (s != "" && s[0] == '+' && Value(s[1..]) == Some(n)))
    ensures ParseI64(s) == Some(i) <==>
            || (0 <= i < 0x8000_0000_0000_0000
                && (Value(s) == Some(i) || (s != "" && s[0] == '+' && Value(s[1..]) == Some(i))))
            || (-0x8000_0000_0000_0000 <= i <= 0 && s != "" && s[0] == '-' && Value(s[1..]) == Some(-i))
  {
    ValueIff(s);
    hide Value;
  }

  /** Printed numbers parse back, exactly when they are within the type's bound. */
  lemma ParsePrintUnsigned(n: nat, max: nat)
    ensures ParseUnsigned(PrintNat(n), max) == if n <= max then Some(n) else None
  {
    PrintNatDigits(n);
    assert PrintNat(n)[0] in PrintNat(n);
  }

  lemma ParsePrintI64(i: int)
    ensures ParseI64(PrintInt(i)) == if -MAX_I64 - 1 <= i <= MAX_I64 then Some(i) else None
  {
    var n := if i < 0 then -i else i;
    PrintNatDigits(n);
    ParsePrintUnsigned(n, MAX_I64);
    hide Value, PrintNat, ParseUnsigned;
    assert PrintNat(n)[0] in PrintNat(n);
    if i < 0 {
      assert PrintInt(i)[1..] == PrintNat(n);
    }
  }
}
