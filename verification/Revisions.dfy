/** `revisionCompare` of GitHubHelpers.js: event revisions start with a numeric
    id of any length. Strings are sequences of code units. */
module Revisions {
  import opened Decimal

  function HeadLength(s: string): (n: nat)
    ensures n <= |s|
  {
    if s == "" || s[0] == ':' then 0 else 1 + HeadLength(s[1..])
  }

  function Head(s: string): string {
    s[..HeadLength(s)]
  }

  function WithoutZeros(s: string): string {
    if s != "" && s[0] == '0' then WithoutZeros(s[1..]) else s
  }

  /** The head without leading zeros, as the source compares it. */
  function Id(s: string): string {
    var stripped := WithoutZeros(Head(s));
    if stripped == "" then "0" else stripped
  }

  /** Code-unit order, as JavaScript compares strings. */
  function StringCompare(a: string, b: string): int {
    if a == [] then (if b == [] then 0 else -1)
    else if b == [] then 1
    else if a[0] < b[0] then -1
    else if a[0] > b[0] then 1
    else StringCompare(a[1..], b[1..])
  }

  function RevisionCompare(a: string, b: string): int {
    var x, y := Id(a), Id(b);
    if AllDigits(x) && AllDigits(y) && |x| != |y| then (if |x| > |y| then 1 else -1)
    else if AllDigits(x) && AllDigits(y) && x != y then (if StringCompare(x, y) > 0 then 1 else -1)
    else if a == b then 0
    else if StringCompare(a, b) > 0 then 1 else -1
  }

  // ---- string order ------------------------------------------------------------

  lemma {:induction false} StringOrder(a: string, b: string)
    ensures StringCompare(a, b) == -StringCompare(b, a)
    ensures StringCompare(a, b) == 0 <==> a == b
    ensures -1 <= StringCompare(a, b) <= 1
    decreases |a|
  {
    if a != [] && b != [] {
      StringOrder(a[1..], b[1..]);
      assert a == [a[0]] + a[1..] && b == [b[0]] + b[1..];
    }
  }

  lemma {:induction false} StringTransitive(a: string, b: string, c: string)
    requires StringCompare(a, b) <= 0 && StringCompare(b, c) <= 0
    ensures StringCompare(a, c) <= 0
    decreases |a|
  {
    if a != [] && b != [] && c != [] && a[0] == b[0] == c[0] {
      StringTransitive(a[1..], b[1..], c[1..]);
    }
  }

  // ---- numeric heads -------------------------------------------------------------

  ghost predicate NumericHead(s: string) {
    AllDigits(Head(s))
  }

  lemma {:induction false} ZerosAddNothing(s: string)
    requires AllDigits(s)
    ensures AllDigits(WithoutZeros(s)) && Value(WithoutZeros(s)) == Value(s)
    ensures WithoutZeros(s) == "" || WithoutZeros(s)[0] != '0'
    decreases |s|
  {
    if s != "" && s[0] == '0' {
      ZerosAddNothing(s[1..]);
      ValueFromLeft(s);
    }
  }

  function HeadValue(s: string): nat
    requires NumericHead(s)
  {
    Value(Head(s))
  }

  lemma {:induction false} IdValue(s: string)
    requires NumericHead(s)
    ensures AllDigits(Id(s)) && Value(Id(s)) == HeadValue(s)
    ensures Id(s) != "" && (Id(s)[0] == '0' ==> Id(s) == "0")
  {
    ZerosAddNothing(Head(s));
    if WithoutZeros(Head(s)) == "" {
      assert Value("0") == 10 * Value(""[..0]) + 0 by { assert "0"[..0] == ""; }
    }
  }

  /** Without leading zeros, the longer number is the larger one. */
  lemma {:induction false} LongerIsLarger(x: string, y: string)
    requires AllDigits(x) && AllDigits(y) && x != "" && y != "" && y[0] != '0' && |x| < |y|
    ensures Value(x) < Value(y)
  {
    ValueBound(x);
    ValueFromLeft(y);
    PowGrows(|x|, |y| - 1);
    TimesGrows(1, Digit(y[0]), Pow10(|y| - 1));
  }

  lemma {:induction false} PowGrows(m: nat, n: nat)
    requires m <= n
    ensures Pow10(m) <= Pow10(n)
    decreases n
  {
    if m < n {
      PowGrows(m, n - 1);
    }
  }

  /** At equal length, code-unit order is numeric order. */
  lemma {:induction false} SameLengthOrder(x: string, y: string)
    requires AllDigits(x) && AllDigits(y) && |x| == |y|
    ensures StringCompare(x, y) < 0 <==> Value(x) < Value(y)
    ensures StringCompare(x, y) == 0 <==> Value(x) == Value(y)
    decreases |x|
  {
    if x != "" {
      ValueFromLeft(x);
      ValueFromLeft(y);
      ValueBound(x[1..]);
      ValueBound(y[1..]);
      var p := Pow10(|x| - 1);
      if x[0] == y[0] {
        SameLengthOrder(x[1..], y[1..]);
      } else {
        LeadingDigit(Digit(x[0]), Digit(y[0]), p, Value(x[1..]), Value(y[1..]));
      }
    }
  }

  lemma {:induction false} LeadingDigit(a: nat, b: nat, p: nat, u: nat, v: nat)
    requires u < p && v < p
    ensures a < b ==> a * p + u < b * p + v
    ensures b < a ==> b * p + v < a * p + u
  {
    if a < b {
      TimesGrows(a + 1, b, p);
    } else if b < a {
      TimesGrows(b + 1, a, p);
    }
  }

  lemma {:induction false} TimesGrows(a: nat, b: nat, p: nat)
    requires 1 <= a <= b
    ensures (a - 1) * p + p <= b * p
    decreases b
  {
  }

  /** On numeric heads the comparison is the integer order of the heads, with
      the whole string deciding between equal ones. */
  lemma {:induction false} ComparesByValue(a: string, b: string)
    requires NumericHead(a) && NumericHead(b)
    ensures RevisionCompare(a, b) < 0 <==>
              HeadValue(a) < HeadValue(b) || (HeadValue(a) == HeadValue(b) && StringCompare(a, b) < 0)
    ensures RevisionCompare(a, b) > 0 <==>
              HeadValue(a) > HeadValue(b) || (HeadValue(a) == HeadValue(b) && StringCompare(a, b) > 0)
  {
    var x, y := Id(a), Id(b);
    IdValue(a);
    IdValue(b);
    StringOrder(a, b);
    StringOrder(x, y);
    if |x| != |y| {
      assert "0" != "" && Value("0") == 0 by { assert "0"[..0] == ""; }
      if |x| < |y| {
        LongerIsLarger(x, y);
      } else {
        LongerIsLarger(y, x);
      }
    } else {
      SameLengthOrder(x, y);
    }
  }

  lemma {:induction false} NumericId(s: string)
    ensures AllDigits(Id(s)) <==> NumericHead(s)
  {
    ZerosAreDigits(Head(s));
  }

  lemma {:induction false} ZerosAreDigits(s: string)
    ensures AllDigits(WithoutZeros(s)) <==> AllDigits(s)
    decreases |s|
  {
    if s != "" && s[0] == '0' {
      ZerosAreDigits(s[1..]);
      assert s == [s[0]] + s[1..];
    }
  }

  /** A head that is not a number makes the whole string decide. */
  lemma {:induction false} ComparesAsStrings(a: string, b: string)
    requires !(NumericHead(a) && NumericHead(b))
    ensures RevisionCompare(a, b) < 0 <==> StringCompare(a, b) < 0
    ensures RevisionCompare(a, b) > 0 <==> StringCompare(a, b) > 0
  {
    NumericId(a);
    NumericId(b);
    StringOrder(a, b);
  }

  /** Comparing is antisymmetric and tells all strings apart. */
  lemma {:induction false} Antisymmetric(a: string, b: string)
    ensures RevisionCompare(a, b) == -RevisionCompare(b, a)
    ensures RevisionCompare(a, b) == 0 <==> a == b
  {
    StringOrder(a, b);
    StringOrder(Id(a), Id(b));
  }

  ghost predicate Circular(a: string, b: string, c: string) {
    RevisionCompare(a, b) < 0 && RevisionCompare(b, c) < 0 && RevisionCompare(c, a) < 0
  }

  /** Two numbers that the string order has the other way round, with a string
      that is not a number between them. */
  ghost predicate Straddles(a: string, b: string, c: string) {
    && NumericHead(a) && NumericHead(b) && !NumericHead(c)
    && HeadValue(a) < HeadValue(b)
    && StringCompare(b, c) < 0 && StringCompare(c, a) < 0
  }

  /** Exactly when three revisions beat each other in a circle. */
  lemma {:induction false} CircularExactly(a: string, b: string, c: string)
    ensures Circular(a, b, c) <==> Straddles(a, b, c) || Straddles(b, c, a) || Straddles(c, a, b)
  {
    hide RevisionCompare, NumericHead, StringCompare, HeadValue;
    Compares(a, b);
    Compares(b, c);
    Compares(c, a);
    Strings(a, b, c);
    Strings(b, c, a);
    Strings(c, a, b);
  }

  /** How two revisions compare, whatever their heads. */
  lemma {:induction false} Compares(a: string, b: string)
    ensures RevisionCompare(a, b) < 0 <==>
              if NumericHead(a) && NumericHead(b) && HeadValue(a) != HeadValue(b) then HeadValue(a) < HeadValue(b)
              else StringCompare(a, b) < 0
  {
    if NumericHead(a) && NumericHead(b) {
      ComparesByValue(a, b);
    } else {
      ComparesAsStrings(a, b);
    }
  }

  lemma {:induction false} Strings(a: string, b: string, c: string)
    ensures StringCompare(a, b) < 0 && StringCompare(b, c) < 0 ==> StringCompare(a, c) < 0 && StringCompare(c, a) > 0
  {
    StringOrder(a, b);
    StringOrder(b, c);
    StringOrder(a, c);
    if StringCompare(a, b) < 0 && StringCompare(b, c) < 0 {
      StringTransitive(a, b, c);
    }
  }

  /** The comparison is transitive exactly on triples that are not circular; so
      it is a total order on numeric heads, and one on all other heads. */
  lemma {:induction false} TotalOrder(a: string, b: string, c: string)
    ensures RevisionCompare(a, b) <= 0 && RevisionCompare(b, c) <= 0 && RevisionCompare(a, c) > 0 <==> Circular(a, b, c)
    ensures (NumericHead(a) <==> NumericHead(b)) && (NumericHead(b) <==> NumericHead(c)) ==> !Circular(a, b, c)
  {
    hide RevisionCompare, NumericHead, StringCompare, HeadValue;
    Antisymmetric(a, b);
    Antisymmetric(b, c);
    Antisymmetric(c, a);
    CircularExactly(a, b, c);
  }

  lemma {:induction false} MixedHeadsCycle()
    ensures Circular("2", "10", "1z")
  {
  }
}
