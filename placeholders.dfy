/** Decimal numerals as a template literal renders them, and the `$n`
    placeholders a PostgreSQL query text refers to its parameters by. */
module SqlPlaceholders {

  predicate IsDigit(c: char) {
    '0' <= c <= '9'
  }

  predicate AllDigits(s: string) {
    forall i :: 0 <= i < |s| ==> IsDigit(s[i])
  }

  /** The value of a string of decimal digits. */
  function DigitsValue(s: string): nat
    requires AllDigits(s)
  {
    if s == [] then 0 else DigitsValue(s[..|s| - 1]) * 10 + (s[|s| - 1] as int - '0' as int)
  }

  /** JavaScript's rendering of a non-negative integer in a template
      literal. */
  function Decimal(n: nat): string
    decreases n
  {
    var last := [('0' as int + n % 10) as char];
    if n < 10 then last else Decimal(n / 10) + last
  }

  /** `Decimal` writes at least one digit, and only digits, and they read
      back as the number written. */
  lemma {:induction false} DecimalReadsBack(n: nat)
    ensures var d := Decimal(n);
      |d| >= 1 && AllDigits(d) && DigitsValue(d) == n
    decreases n
  {
    if n >= 10 {
      DecimalReadsBack(n / 10);
      var front, last := Decimal(n / 10), [('0' as int + n % 10) as char];
      assert (front + last)[..|front|] == front;
    }
  }

  /** The longest prefix of `s` made of digits. */
  function LeadingDigits(s: string): (r: string)
    ensures |r| <= |s|
    decreases |s|
  {
    if s != [] && IsDigit(s[0]) then [s[0]] + LeadingDigits(s[1..]) else []
  }

  /** `LeadingDigits` keeps digits only, and stops at the end of `s` or at
      its first non-digit. */
  lemma {:induction false} LeadingDigitsIsLongestDigitPrefix(s: string)
    ensures var r := LeadingDigits(s);
      r == s[..|r|] && AllDigits(r) && (|r| < |s| ==> !IsDigit(s[|r|]))
    decreases |s|
  {
    if s != [] && IsDigit(s[0]) {
      LeadingDigitsIsLongestDigitPrefix(s[1..]);
    }
  }

  /** The number a run of digits at the start of `t` spells, if any. */
  function NumberAtStart(t: string): seq<nat>
  {
    var d := LeadingDigits(t);
    LeadingDigitsIsLongestDigitPrefix(t);
    if d == [] then [] else [DigitsValue(d)]
  }

  /** The placeholder numbers of a SQL text, in order: each `$` followed by
      at least one digit contributes the number those digits spell. */
  function Placeholders(s: string): seq<nat>
    decreases |s|
  {
    if s == [] then []
    else if s[0] == '$' then NumberAtStart(s[1..]) + Placeholders(s[1 + |LeadingDigits(s[1..])|..])
    else Placeholders(s[1..])
  }

  /** The `count` numbers from `first` on, ascending. */
  function Range(first: nat, count: nat): (r: seq<nat>)
    ensures |r| == count && forall i :: 0 <= i < count ==> r[i] == first + i
    decreases count
  {
    if count == 0 then [] else Range(first, count - 1) + [first + count - 1]
  }

  lemma {:induction false} LeadingDigitsAppend(a: string, b: string)
    requires b == [] || !IsDigit(b[0])
    ensures LeadingDigits(a + b) == LeadingDigits(a)
    decreases |a|
  {
    if a == [] {
      assert a + b == b;
    } else {
      assert (a + b)[0] == a[0] && (a + b)[1..] == a[1..] + b;
      LeadingDigitsAppend(a[1..], b);
    }
  }

  /** Gluing a text that does not start with a digit onto another cannot
      merge or split placeholders. */
  lemma {:induction false} PlaceholdersAppend(a: string, b: string)
    requires b == [] || !IsDigit(b[0])
    ensures Placeholders(a + b) == Placeholders(a) + Placeholders(b)
    decreases |a|
  {
    if a == [] {
      assert a + b == b;
    } else if a[0] == '$' {
      var rest := a[1 + |LeadingDigits(a[1..])|..];
      PlaceholdersAppend(rest, b);
      DollarStep(a, b);
      assert Placeholders(a + b) == NumberAtStart(a[1..]) + Placeholders(rest + b);
      assert Placeholders(a) == NumberAtStart(a[1..]) + Placeholders(rest);
    } else {
      assert (a + b)[0] == a[0] && (a + b)[1..] == a[1..] + b;
      PlaceholdersAppend(a[1..], b);
      assert Placeholders(a + b) == Placeholders(a[1..] + b);
    }
  }

  /** The `$` case of `PlaceholdersAppend`: the digits after the `$` and
      the text after them are those of `a` alone, followed by `b`. */
  lemma DollarStep(a: string, b: string)
    requires a != [] && a[0] == '$'
    requires b == [] || !IsDigit(b[0])
    ensures var d := LeadingDigits(a[1..]);
      && (a + b)[0] == '$'
      && LeadingDigits((a + b)[1..]) == d
      && NumberAtStart((a + b)[1..]) == NumberAtStart(a[1..])
      && (a + b)[1 + |d|..] == a[1 + |d|..] + b
  {
    var ab := a + b;
    assert ab[1..] == a[1..] + b;
    LeadingDigitsAppend(a[1..], b);
  }

  /** A run of digits is its own longest digit prefix. */
  lemma {:induction false} LeadingDigitsOfDigits(d: string)
    requires AllDigits(d)
    ensures LeadingDigits(d) == d
    decreases |d|
  {
    if d != [] {
      LeadingDigitsOfDigits(d[1..]);
    }
  }

  /** `$` followed by digits and nothing else is one placeholder. */
  lemma DollarDigits(d: string)
    requires d != [] && AllDigits(d)
    ensures Placeholders("$" + d) == [DigitsValue(d)]
  {
    var p := "$" + d;
    assert p[0] == '$' && p[1..] == d;
    LeadingDigitsOfDigits(d);
    assert p[1 + |d|..] == [];
  }

  lemma {:induction false} NoDollarNoPlaceholders(s: string)
    requires '$' !in s
    ensures Placeholders(s) == []
    decreases |s|
  {
    if s != [] {
      assert s[0] in s;
      NoDollarNoPlaceholders(s[1..]);
    }
  }
}
