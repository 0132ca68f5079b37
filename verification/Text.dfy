/** Character classes and string primitives of Python, over sequences of characters. */
module Text {
  import opened Ordering
  import opened Wrappers

  /** The ranges of characters that str.isspace and the regular expression class \s accept. */
  const SPACES: seq<(char, char)> := [
    ('\t', '\r'), ('\U{1C}', ' '), ('\U{85}', '\U{85}'), ('\U{A0}', '\U{A0}'), ('\U{1680}', '\U{1680}'),
    ('\U{2000}', '\U{200A}'), ('\U{2028}', '\U{2029}'), ('\U{202F}', '\U{202F}'), ('\U{205F}', '\U{205F}'),
    ('\U{3000}', '\U{3000}')]

  predicate InRanges(c: char, ranges: seq<(char, char)>) {
    ranges != [] && (ranges[0].0 <= c <= ranges[0].1 || InRanges(c, ranges[1..]))
  }

  predicate IsSpace(c: char) {
    InRanges(c, SPACES)
  }

  lemma {:induction false} OutOfRanges(c: char, ranges: seq<(char, char)>)
    requires forall i | 0 <= i < |ranges| :: c < ranges[i].0 || ranges[i].1 < c
    ensures !InRanges(c, ranges)
  {
    if ranges != [] {
      OutOfRanges(c, ranges[1..]);
    }
  }

  /** The visible ASCII characters are not white space; blanks and line breaks are. */
  lemma VisibleIsNotSpace(c: char)
    requires '!' <= c <= '~'
    ensures !IsSpace(c)
  {
    OutOfRanges(c, SPACES);
  }

  lemma BlankIsSpace(c: char)
    requires c == ' ' || c == '\t' || c == '\n' || c == '\r'
    ensures IsSpace(c)
  {
  }

  predicate IsDigit(c: char) {
    '0' <= c <= '9'
  }

  predicate IsHex(c: char) {
    IsDigit(c) || 'a' <= c <= 'f' || 'A' <= c <= 'F'
  }

  /** str.strip on the left, on the right, and on both ends. */
  function StripLeft(s: string): (r: string)
    ensures r == [] || !IsSpace(r[0])
  {
    if s != [] && IsSpace(s[0]) then StripLeft(s[1..]) else s
  }

  function StripRight(s: string): (r: string)
    ensures r == [] || (!IsSpace(r[|r| - 1]) && s != [] && r[0] == s[0])
  {
    if s != [] && IsSpace(s[|s| - 1]) then StripRight(s[..|s| - 1]) else s
  }

  function Strip(s: string): (r: string)
    ensures r == [] || (!IsSpace(r[0]) && !IsSpace(r[|r| - 1]))
  {
    StripRight(StripLeft(s))
  }

  lemma StripFixed(s: string)
    requires s == [] || (!IsSpace(s[0]) && !IsSpace(s[|s| - 1]))
    ensures Strip(s) == s
  {
  }

  predicate AllSpace(s: string) {
    forall c | c in s :: IsSpace(c)
  }

  /** Text that neither begins nor ends with white space. */
  predicate Bare(s: string) {
    s == [] || (!IsSpace(s[0]) && !IsSpace(s[|s| - 1]))
  }

  lemma {:induction false} StripLeftMeets(a: string, s: string)
    requires AllSpace(a) && (s == [] || !IsSpace(s[0]))
    ensures StripLeft(a + s) == s
  {
    if a == [] {
      assert a + s == s;
    } else {
      assert a[0] in a && forall c | c in a[1..] :: c in a;
      assert (a + s)[1..] == a[1..] + s;
      StripLeftMeets(a[1..], s);
    }
  }

  lemma {:induction false} StripRightMeets(s: string, b: string)
    requires AllSpace(b) && (s == [] || !IsSpace(s[|s| - 1]))
    ensures StripRight(s + b) == s
  {
    if b == [] {
      assert s + b == s;
    } else {
      var n := |b| - 1;
      assert b[n] in b && forall c | c in b[..n] :: c in b;
      assert (s + b)[..|s + b| - 1] == s + b[..n];
      StripRightMeets(s, b[..n]);
    }
  }

  /** str.strip takes away exactly the white space at both ends. */
  lemma StripMeets(a: string, s: string, b: string)
    requires AllSpace(a) && Bare(s) && AllSpace(b)
    ensures Strip(a + s + b) == s
  {
    assert a + s + b == a + (s + b);
    if s == [] {
      assert AllSpace(a + b);
      StripLeftMeets(a + b, []);
      assert a + b + [] == a + (s + b);
    } else {
      StripLeftMeets(a, s + b);
      StripRightMeets(s, b);
    }
  }

  /** str.rstrip("."). */
  function StripDots(s: string): (r: string)
    ensures r == [] || r[|r| - 1] != '.'
  {
    if s != [] && s[|s| - 1] == '.' then StripDots(s[..|s| - 1]) else s
  }

  predicate AllDots(s: string) {
    forall c | c in s :: c == '.'
  }

  lemma {:induction false} StripDotsMeets(s: string, dots: string)
    requires AllDots(dots) && (s == [] || s[|s| - 1] != '.')
    ensures StripDots(s + dots) == s
  {
    if dots == [] {
      assert s + dots == s;
    } else {
      var n := |dots| - 1;
      assert dots[n] in dots && forall c | c in dots[..n] :: c in dots;
      assert (s + dots)[..|s + dots| - 1] == s + dots[..n];
      StripDotsMeets(s, dots[..n]);
    }
  }

  /** str.lower, exact wherever the result can be ASCII: U+212A is the only other
      character whose lower-case form is an ASCII one. */
  function LowerChar(c: char): char {
    if 'A' <= c <= 'Z' then (c as int + 32) as char
    else if c == '\U{212A}' then 'k'
    else c
  }

  /** str.upper, exact wherever the result can be a single ASCII letter. */
  function UpperChar(c: char): char {
    if 'a' <= c <= 'z' then (c as int - 32) as char
    else if c == '\U{17F}' then 'S'
    else if c == '\U{131}' then 'I'
    else c
  }

  function Lower(s: string): (r: string)
    ensures |r| == |s| && forall i | 0 <= i < |s| :: r[i] == LowerChar(s[i])
  {
    seq(|s|, i requires 0 <= i < |s| => LowerChar(s[i]))
  }

  function Upper(s: string): (r: string)
    ensures |r| == |s| && forall i | 0 <= i < |s| :: r[i] == UpperChar(s[i])
  {
    seq(|s|, i requires 0 <= i < |s| => UpperChar(s[i]))
  }

  /** str.split with a one-character separator. */
  function Split(s: string, sep: char): (r: seq<string>)
    ensures |r| >= 1
  {
    if s == [] then [[]]
    else
      var rest := Split(s[1..], sep);
      if s[0] == sep then [[]] + rest else [[s[0]] + rest[0]] + rest[1..]
  }

  /** Every character of the text is the separator or belongs to one of the parts. */
  lemma {:induction false} SplitCovers(s: string, sep: char, i: nat)
    requires i < |s| && s[i] != sep
    ensures exists p :: p in Split(s, sep) && s[i] in p
  {
    var rest := Split(s[1..], sep);
    if i > 0 {
      SplitCovers(s[1..], sep, i - 1);
      var p :| p in rest && s[1..][i - 1] in p;
      var j :| 0 <= j < |rest| && rest[j] == p;
      if j == 0 && s[0] != sep {
        assert s[i] in [s[0]] + rest[0];
        assert [s[0]] + rest[0] in Split(s, sep);
      } else {
        var k := if s[0] == sep then j + 1 else j;
        assert Split(s, sep)[k] == p;
      }
    } else {
      assert s[0] in [s[0]] + rest[0];
      assert Split(s, sep)[0] == [s[0]] + rest[0];
    }
  }

  /** str.join. */
  function Joined(parts: seq<string>, sep: char): string {
    if parts == [] then []
    else if |parts| == 1 then parts[0]
    else parts[0] + [sep] + Joined(parts[1..], sep)
  }

  lemma {:induction false} SplitWord(w: string, sep: char)
    requires sep !in w
    ensures Split(w, sep) == [w]
  {
    if w != [] {
      assert w[0] in w && forall c | c in w[1..] :: c in w;
      SplitWord(w[1..], sep);
      assert [w[0]] + w[1..] == w;
    }
  }

  lemma {:induction false} SplitFirst(w: string, rest: string, sep: char)
    requires sep !in w
    ensures Split(w + [sep] + rest, sep) == [w] + Split(rest, sep)
  {
    var s := w + [sep] + rest;
    if w == [] {
      assert s[1..] == rest;
    } else {
      assert w[0] in w && forall c | c in w[1..] :: c in w;
      assert s[1..] == w[1..] + [sep] + rest;
      SplitFirst(w[1..], rest, sep);
      assert [w[0]] + w[1..] == w;
      assert ([w[1..]] + Split(rest, sep))[1..] == Split(rest, sep);
    }
  }

  /** str.split gives the parts that make the text when they are joined: those and no others. */
  lemma {:induction false} SplitMeets(parts: seq<string>, sep: char)
    requires parts != [] && forall p | p in parts :: sep !in p
    ensures Split(Joined(parts, sep), sep) == parts
  {
    if |parts| == 1 {
      SplitWord(parts[0], sep);
      assert parts == [parts[0]];
    } else {
      assert forall p | p in parts[1..] :: p in parts;
      SplitMeets(parts[1..], sep);
      SplitFirst(parts[0], Joined(parts[1..], sep), sep);
      assert parts == [parts[0]] + parts[1..];
    }
  }

  lemma {:induction false} SplitJoins(s: string, sep: char)
    ensures Joined(Split(s, sep), sep) == s && forall p | p in Split(s, sep) :: sep !in p
  {
    if s != [] {
      var rest := Split(s[1..], sep);
      SplitJoins(s[1..], sep);
      if s[0] == sep {
        assert ([[]] + rest)[1..] == rest;
        assert [] + [sep] + s[1..] == s;
      } else {
        JoinedFirst(s[0], rest, sep);
        assert [s[0]] + s[1..] == s;
        forall p | p in Split(s, sep) ensures sep !in p {
          if p == [s[0]] + rest[0] {
            assert rest[0] in rest;
          } else {
            assert p in rest[1..];
          }
        }
      }
    }
  }

  lemma JoinedFirst(c: char, rest: seq<string>, sep: char)
    requires rest != []
    ensures Joined([[c] + rest[0]] + rest[1..], sep) == [c] + Joined(rest, sep)
  {
    var all := [[c] + rest[0]] + rest[1..];
    assert all[1..] == rest[1..];
    if |rest| > 1 {
      assert [c] + rest[0] + [sep] + Joined(rest[1..], sep) == [c] + (rest[0] + [sep] + Joined(rest[1..], sep));
    }
  }

  /** Python's string order: lexicographic by code point. */
  predicate Leq(a: string, b: string) {
    a == [] || (b != [] && (a[0] < b[0] || (a[0] == b[0] && Leq(a[1..], b[1..]))))
  }

  /** The strings agree up to a place where the first ends or has the smaller character. */
  ghost predicate FirstDifference(a: string, b: string, n: nat) {
    && n <= |a| && n <= |b| && a[..n] == b[..n]
    && (n == |a| || (n < |b| && a[n] < b[n]))
  }

  lemma {:induction false} LeqIff(a: string, b: string)
    ensures Leq(a, b) <==> exists n: nat :: FirstDifference(a, b, n)
  {
    if a == [] {
      assert FirstDifference(a, b, 0);
    } else if b == [] {
    } else if a[0] != b[0] {
      if a[0] < b[0] {
        assert FirstDifference(a, b, 0);
      }
      forall n: nat | FirstDifference(a, b, n) ensures a[0] < b[0] {
        if n > 0 {
          assert a[..n][0] == b[..n][0];
        }
      }
    } else {
      LeqIff(a[1..], b[1..]);
      LeqIffTail(a, b);
    }
  }

  lemma LeqIffTail(a: string, b: string)
    requires a != [] && b != [] && a[0] == b[0]
    ensures (exists n: nat :: FirstDifference(a, b, n)) <==> exists n: nat :: FirstDifference(a[1..], b[1..], n)
  {
    if n: nat :| FirstDifference(a, b, n) {
      assert n > 0;
      var m: nat := n - 1;
      assert a[1..][..m] == b[1..][..m] by {
        forall i | 0 <= i < m ensures a[1..][i] == b[1..][i] {
          assert a[..n][i + 1] == b[..n][i + 1];
        }
      }
      assert FirstDifference(a[1..], b[1..], m);
    }
    if m: nat :| FirstDifference(a[1..], b[1..], m) {
      var n := m + 1;
      assert a[..n] == [a[0]] + a[1..][..m] && b[..n] == [b[0]] + b[1..][..m];
      assert FirstDifference(a, b, n);
    }
  }

  lemma {:induction false} LeqTotal(a: string, b: string)
    ensures Leq(a, b) || Leq(b, a)
    ensures Leq(a, b) && Leq(b, a) ==> a == b
  {
    if a != [] && b != [] {
      LeqTotal(a[1..], b[1..]);
      assert a == [a[0]] + a[1..] && b == [b[0]] + b[1..];
    }
  }

  lemma {:induction false} LeqTransitive(a: string, b: string, c: string)
    requires Leq(a, b) && Leq(b, c)
    ensures Leq(a, c)
  {
    if a != [] && b != [] && c != [] && a[0] == b[0] == c[0] {
      LeqTransitive(a[1..], b[1..], c[1..]);
    }
  }

  lemma LeqIsTotalOrder()
    ensures TotalOrder(Leq)
  {
    forall a, b ensures Leq(a, b) || Leq(b, a) { LeqTotal(a, b); }
    forall a, b | Leq(a, b) && Leq(b, a) ensures a == b { LeqTotal(a, b); }
    forall a, b, c | Leq(a, b) && Leq(b, c) ensures Leq(a, c) { LeqTransitive(a, b, c); }
  }

  /** sorted() of a set of strings. */
  ghost function SortNames(names: set<string>): (r: seq<string>)
    ensures Sorted(Leq, r) && Distinct(r) && Elements(r) == names && |r| == |names|
  {
    LeqIsTotalOrder();
    SortSet(Leq, names)
  }

  lemma SortNamesUnique(r: seq<string>, names: set<string>)
    requires Sorted(Leq, r) && Distinct(r) && Elements(r) == names
    ensures r == SortNames(names)
  {
    LeqIsTotalOrder();
    SortedSetUnique(Leq, r, names);
  }

  function DigitChar(d: nat): (c: char)
    requires d < 10
    ensures IsDigit(c)
  {
    ('0' as int + d) as char
  }

  function DigitValue(c: char): (d: nat)
    requires IsDigit(c)
    ensures d < 10
  {
    c as int - '0' as int
  }

  /** str() of a non-negative integer. */
  function Decimal(n: nat): (r: string)
    ensures |r| >= 1 && forall c | c in r :: IsDigit(c)
  {
    if n < 10 then [DigitChar(n)] else Decimal(n / 10) + [DigitChar(n % 10)]
  }

  /** The number that a string of digits denotes. */
  function ReadDecimal(s: string): Option<nat> {
    if s == [] || !IsDigit(s[|s| - 1]) then None
    else if |s| == 1 then Some(DigitValue(s[0]))
    else
      match ReadDecimal(s[..|s| - 1])
      case None => None
      case Some(n) => Some(10 * n + DigitValue(s[|s| - 1]))
  }

  lemma {:induction false} ReadBackDecimal(n: nat)
    ensures ReadDecimal(Decimal(n)) == Some(n)
  {
    if n >= 10 {
      ReadBackDecimal(n / 10);
      var s := Decimal(n);
      assert s[..|s| - 1] == Decimal(n / 10);
    }
  }

  /** Letters change their case, and the other visible ASCII characters stay. */
  lemma CaseOfLetter(k: nat)
    requires k < 26
    ensures LowerChar((65 + k) as char) == LowerChar((97 + k) as char) == (97 + k) as char
    ensures UpperChar((65 + k) as char) == UpperChar((97 + k) as char) == (65 + k) as char
  {
  }

  lemma CaseOfOther(c: char)
    requires '!' <= c < 'A' || 'Z' < c < 'a' || 'z' < c <= '~'
    ensures LowerChar(c) == c == UpperChar(c)
  {
  }

  lemma {:induction false} ReadDecimalIff(s: string)
    ensures ReadDecimal(s).Some? <==> s != [] && forall c | c in s :: IsDigit(c)
  {
    if s != [] {
      var n := |s| - 1;
      assert forall c :: c in s <==> c in s[..n] || c == s[n];
      ReadDecimalIff(s[..n]);
    }
  }
}
