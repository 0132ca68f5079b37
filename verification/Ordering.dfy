/** Total orders, sorted sequences, and the one sorted listing of a finite set. */
module Ordering {

  ghost predicate TotalOrder<T(!new)>(leq: (T, T) -> bool) {
    && (forall x, y :: leq(x, y) || leq(y, x))
    && (forall x, y :: leq(x, y) && leq(y, x) ==> x == y)
    && (forall x, y, z :: leq(x, y) && leq(y, z) ==> leq(x, z))
  }

  ghost predicate Sorted<T(!new)>(leq: (T, T) -> bool, s: seq<T>) {
    forall i, j :: 0 <= i < j < |s| ==> leq(s[i], s[j])
  }

  ghost predicate Distinct<T(!new)>(s: seq<T>) {
    forall i, j :: 0 <= i < j < |s| ==> s[i] != s[j]
  }

  ghost function Elements<T(!new)>(s: seq<T>): set<T> {
    set x | x in s
  }

  ghost predicate IsLeast<T(!new)>(leq: (T, T) -> bool, m: T, s: set<T>) {
    m in s && forall x | x in s :: leq(m, x)
  }

  lemma LeastWithOneMore<T(!new)>(leq: (T, T) -> bool, m: T, s: set<T>, c: T)
    requires TotalOrder(leq) && IsLeast(leq, m, s)
    ensures IsLeast(leq, if leq(c, m) then c else m, s + {c})
  {
  }

  lemma {:induction false} LeastExists<T(!new)>(leq: (T, T) -> bool, s: set<T>)
    requires TotalOrder(leq) && s != {}
    ensures exists m :: IsLeast(leq, m, s)
  {
    var c :| c in s;
    var rest := s - {c};
    if rest == {} {
      assert s == {c} && leq(c, c);
      assert IsLeast(leq, c, s);
    } else {
      LeastExists(leq, rest);
      var m :| IsLeast(leq, m, rest);
      LeastWithOneMore(leq, m, rest, c);
      assert rest + {c} == s;
    }
  }

  /** The elements of a set in increasing order, as Python's sorted() lists them. */
  ghost function SortSet<T(!new)>(leq: (T, T) -> bool, s: set<T>): (r: seq<T>)
    requires TotalOrder(leq)
    ensures Sorted(leq, r) && Distinct(r) && Elements(r) == s && |r| == |s|
    decreases |s|
  {
    if s == {} then []
    else
      ghost var least := LeastOf(leq, s);
      assert s == (s - {least}) + {least};
      [least] + SortSet(leq, s - {least})
  }

  ghost function LeastOf<T(!new)>(leq: (T, T) -> bool, s: set<T>): (m: T)
    requires TotalOrder(leq) && s != {}
    ensures IsLeast(leq, m, s)
  {
    LeastExists(leq, s);
    var m :| IsLeast(leq, m, s);
    m
  }

  lemma SortedHead<T(!new)>(leq: (T, T) -> bool, a: seq<T>, x: T)
    requires TotalOrder(leq) && Sorted(leq, a) && x in a
    ensures leq(a[0], x)
  {
  }

  lemma SameHead<T(!new)>(leq: (T, T) -> bool, a: seq<T>, b: seq<T>)
    requires TotalOrder(leq) && Sorted(leq, a) && Sorted(leq, b)
    requires multiset(a) == multiset(b) && a != []
    ensures b != [] && a[0] == b[0]
  {
    assert a[0] in multiset(a);
    assert a[0] in b;
    assert b[0] in multiset(b);
    assert b[0] in a;
    SortedHead(leq, a, b[0]);
    SortedHead(leq, b, a[0]);
  }

  lemma TailMultiset<T>(a: seq<T>)
    requires a != []
    ensures multiset(a[1..]) == multiset(a) - multiset{a[0]}
  {
    assert a == [a[0]] + a[1..];
  }

  lemma MultisetWithout<T>(s: seq<T>, i: nat)
    requires i < |s|
    ensures multiset(s[..i] + s[i + 1..]) == multiset(s) - multiset{s[i]}
  {
    assert s == s[..i] + [s[i]] + s[i + 1..];
  }

  /** The head of one listing, found in another listing of the same multiset. */
  lemma HeadElsewhere<T>(a: seq<T>, b: seq<T>) returns (i: nat)
    requires a != [] && multiset(a) == multiset(b)
    ensures i < |b| && b[i] == a[0] && multiset(a[1..]) == multiset(b[..i] + b[i + 1..])
  {
    assert a[0] in multiset(b);
    i :| 0 <= i < |b| && b[i] == a[0];
    TailMultiset(a);
    MultisetWithout(b, i);
  }

  /** Two sorted listings of the same multiset are the same sequence. */
  lemma {:induction false} SortedUnique<T(!new)>(leq: (T, T) -> bool, a: seq<T>, b: seq<T>)
    requires TotalOrder(leq) && Sorted(leq, a) && Sorted(leq, b)
    requires multiset(a) == multiset(b)
    ensures a == b
  {
    if a == [] {
      assert |multiset(b)| == 0;
    } else {
      SameHead(leq, a, b);
      TailMultiset(a);
      TailMultiset(b);
      SortedTail(leq, a);
      SortedTail(leq, b);
      SortedUnique(leq, a[1..], b[1..]);
      assert a == [a[0]] + a[1..] && b == [b[0]] + b[1..];
    }
  }

  lemma SortedTail<T(!new)>(leq: (T, T) -> bool, a: seq<T>)
    requires Sorted(leq, a) && a != []
    ensures Sorted(leq, a[1..])
  {
  }

  lemma {:induction false} SortedSetUnique<T(!new)>(leq: (T, T) -> bool, a: seq<T>, s: set<T>)
    requires TotalOrder(leq) && Sorted(leq, a) && Distinct(a) && Elements(a) == s
    ensures a == SortSet(leq, s)
  {
    var b := SortSet(leq, s);
    DistinctMultiset(a);
    DistinctMultiset(b);
    SortedUnique(leq, a, b);
  }

  lemma {:induction false} DistinctMultiset<T(!new)>(a: seq<T>)
    requires Distinct(a)
    ensures multiset(a) == multiset(Elements(a))
  {
    if a == [] {
      assert Elements(a) == {};
    } else {
      assert a == [a[0]] + a[1..];
      DistinctMultiset(a[1..]);
      assert Elements(a) == {a[0]} + Elements(a[1..]);
      assert a[0] !in a[1..];
    }
  }

  function InsertInto<T(!new)>(leq: (T, T) -> bool, x: T, s: seq<T>): seq<T> {
    if s == [] || leq(x, s[0]) then [x] + s else [s[0]] + InsertInto(leq, x, s[1..])
  }

  lemma {:induction false} InsertIntoSorted<T(!new)>(leq: (T, T) -> bool, x: T, s: seq<T>)
    requires TotalOrder(leq) && Sorted(leq, s) && Distinct(s) && x !in s
    ensures var r := InsertInto(leq, x, s);
            Sorted(leq, r) && Distinct(r) && Elements(r) == Elements(s) + {x}
  {
    if s == [] {
    } else if leq(x, s[0]) {
      forall j | 0 <= j < |s| ensures leq(x, s[j]) {
        SortedHead(leq, s, s[j]);
      }
    } else {
      var r := InsertInto(leq, x, s[1..]);
      InsertIntoSorted(leq, x, s[1..]);
      assert s == [s[0]] + s[1..];
      forall j | 0 <= j < |r| ensures leq(s[0], r[j]) && s[0] != r[j] {
        assert r[j] in Elements(r);
        if r[j] != x {
          SortedHead(leq, s, r[j]);
        }
      }
    }
  }

  /** sorted() of a set. */
  method SortedList<T(!new, ==)>(leq: (T, T) -> bool, s: set<T>) returns (r: seq<T>)
    requires TotalOrder(leq)
    ensures Sorted(leq, r) && Distinct(r) && Elements(r) == s
  {
    r := [];
    var rest := s;
    while rest != {}
      invariant rest <= s && Elements(r) == s - rest
      invariant Sorted(leq, r) && Distinct(r)
    {
      var x :| x in rest;
      assert x !in Elements(r);
      InsertIntoSorted(leq, x, r);
      r := InsertInto(leq, x, r);
      rest := rest - {x};
    }
  }
}
