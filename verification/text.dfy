/** Text as the controller handles it: Go's string order, the few functions of
    Go's strings package that it calls, and decimal numbers.
  */
module Text {
  import opened Sorting

  datatype Option<+T> = None | Some(value: T)

  /** a <= b in Go's order on strings. */
  predicate Le(a: string, b: string) {
    |a| == 0 || (|b| != 0 && (a[0] < b[0] || (a[0] == b[0] && Le(a[1..], b[1..]))))
  }

  lemma {:induction false} LeTotal(a: string, b: string)
    ensures Le(a, b) || Le(b, a)
  {
    if a != [] && b != [] && a[0] == b[0] {
      LeTotal(a[1..], b[1..]);
    }
  }

  lemma {:induction false} LeTransitive(a: string, b: string, c: string)
    requires Le(a, b) && Le(b, c)
    ensures Le(a, c)
  {
    if a != [] && a[0] == b[0] == c[0] {
      LeTransitive(a[1..], b[1..], c[1..]);
    }
  }

  lemma {:induction false} LeAntisymmetric(a: string, b: string)
    requires Le(a, b) && Le(b, a)
    ensures a == b
  {
    if a != [] {
      LeAntisymmetric(a[1..], b[1..]);
      assert a == [a[0]] + a[1..] && b == [b[0]] + b[1..];
    }
  }

  lemma LeIsLinear()
    ensures Preorder(Le)
    ensures forall s: seq<string> :: Separates(Le, s)
  {
    forall x, y ensures Le(x, y) || Le(y, x) {
      LeTotal(x, y);
    }
    forall x, y, z | Le(x, y) && Le(y, z) ensures Le(x, z) {
      LeTransitive(x, y, z);
    }
    forall x, y | Le(x, y) && Le(y, x) ensures x == y {
      LeAntisymmetric(x, y);
    }
  }

  function SortStrings(s: seq<string>): (r: seq<string>)
    ensures multiset(r) == multiset(s)
  {
    Sort(Le, s)
  }

  predicate HasPrefix(s: string, prefix: string) {
    |prefix| <= |s| && s[..|prefix|] == prefix
  }

  predicate HasSuffix(s: string, suffix: string) {
    |suffix| <= |s| && s[|s| - |suffix|..] == suffix
  }

  function TrimPrefix(s: string, prefix: string): string {
    if HasPrefix(s, prefix) then s[|prefix|..] else s
  }

  function TrimSuffix(s: string, suffix: string): string {
    if HasSuffix(s, suffix) then s[..|s| - |suffix|] else s
  }

  function Digit(d: nat): char
    requires d < 10
  {
    (d as char + '0')
  }

  /** The decimal numeral of n, as printed by the verb d. */
  function Decimal(n: nat): (s: string)
    ensures |s| > 0 && forall c | c in s :: '0' <= c <= '9'
  {
    if n < 10 then [Digit(n)] else Decimal(n / 10) + [Digit(n % 10)]
  }

  /** The number a decimal numeral stands for, if s is one. */
  function ParseDecimal(s: string): Option<nat> {
    if s == [] then None
    else
      var last := s[|s| - 1];
      if !('0' <= last <= '9') then None
      else if |s| == 1 then Some((last - '0') as nat)
      else match ParseDecimal(s[..|s| - 1])
        case None => None
        case Some(tens) => Some(10 * tens + (last - '0') as nat)
  }

  lemma {:induction false} DecimalRoundTrip(n: nat)
    ensures ParseDecimal(Decimal(n)) == Some(n)
  {
    var s := Decimal(n);
    if n >= 10 {
      DecimalRoundTrip(n / 10);
      assert s[..|s| - 1] == Decimal(n / 10);
    }
  }

  // Joining and splitting.

  function JoinStrings(parts: seq<string>, separator: string): string {
    if parts == [] then ""
    else if |parts| == 1 then parts[0]
    else parts[0] + separator + JoinStrings(parts[1..], separator)
  }

  /** The parts of s, which the separator separates. */
  function Split(s: string, separator: char): (parts: seq<string>)
    ensures parts != []
  {
    if s == "" then [""]
    else if s[0] == separator then [""] + Split(s[1..], separator)
    else
      var rest := Split(s[1..], separator);
      [[s[0]] + rest[0]] + rest[1..]
  }

  predicate Lacks(s: string, c: char) { c !in s }

  lemma {:induction false} SplitWithout(s: string, separator: char)
    requires Lacks(s, separator)
    ensures Split(s, separator) == [s]
  {
    if s != "" {
      SplitWithout(s[1..], separator);
      assert s == [s[0]] + s[1..];
    }
  }

  lemma {:induction false} SplitFirst(a: string, b: string, separator: char)
    requires Lacks(a, separator)
    ensures Split(a + [separator] + b, separator) == [a] + Split(b, separator)
  {
    var s := a + [separator] + b;
    if a == "" {
      assert s[1..] == b;
    } else {
      assert s[1..] == a[1..] + [separator] + b;
      SplitFirst(a[1..], b, separator);
      assert a == [a[0]] + a[1..];
    }
  }

  lemma {:induction false} SplitJoined(values: seq<string>)
    requires values != [] && forall v :: v in values ==> Lacks(v, ',')
    ensures Split(JoinStrings(values, ","), ',') == values
  {
    if |values| == 1 {
      SplitWithout(values[0], ',');
    } else {
      SplitJoined(values[1..]);
      SplitFirst(values[0], JoinStrings(values[1..], ","), ',');
      assert values == [values[0]] + values[1..];
    }
  }
}
