/** The list operations the repositories rely on: filtered projection (a SELECT), counting, and
    ordering (ORDER BY and Python's `sorted`). The main fact is SortCanonical: under an order
    that is total on the members, any two listings of the same rows sort to the same list, so
    what is composed in that order does not depend on how the rows are stored. */
module Sequences {
  import opened Wrappers

  // ---- Filtered projection -------------------------------------------------

  /** The values `f` extracts from `s`, in order. */
  function Collect<T, U>(s: seq<T>, f: T -> Option<U>): (r: seq<U>)
  {
    if s == [] then
      []
    else
      var last := f(s[|s| - 1]);
      Collect(s[..|s| - 1], f) + if last.Some? then [last.value] else []
  }

  lemma CollectAppend<T, U>(s: seq<T>, x: T, f: T -> Option<U>)
    ensures Collect(s + [x], f) == Collect(s, f) + (if f(x).Some? then [f(x).value] else [])
  {
    assert (s + [x])[..|s|] == s;
  }

  lemma {:induction false} CollectConcat<T, U>(a: seq<T>, b: seq<T>, f: T -> Option<U>)
    ensures Collect(a + b, f) == Collect(a, f) + Collect(b, f)
  {
    if b == [] {
      assert a + b == a;
    } else {
      var b' := b[..|b| - 1];
      assert a + b == (a + b') + [b[|b| - 1]] && b == b' + [b[|b| - 1]];
      CollectConcat(a, b', f);
      CollectAppend(a + b', b[|b| - 1], f);
      CollectAppend(b', b[|b| - 1], f);
    }
  }

  /** A projection that selects nothing in `b` ignores `b`. */
  lemma {:induction false} CollectNothing<T, U>(a: seq<T>, b: seq<T>, f: T -> Option<U>)
    requires forall x :: x in b ==> f(x).None?
    ensures Collect(a + b, f) == Collect(a, f)
  {
    if b == [] {
      assert a + b == a;
    } else {
      var b' := b[..|b| - 1];
      CollectNothing(a, b', f);
      assert a + b == (a + b') + [b[|b| - 1]];
      CollectAppend(a + b', b[|b| - 1], f);
    }
  }

  /** Only values extracted from elements of `s` are collected. */
  lemma {:induction false} CollectElement<T, U>(s: seq<T>, f: T -> Option<U>, u: U)
    ensures u in Collect(s, f) <==> exists x :: x in s && f(x) == Some(u)
  {
    if s != [] {
      var s', last := s[..|s| - 1], s[|s| - 1];
      assert s == s' + [last];
      CollectElement(s', f, u);
      if x :| x in s && f(x) == Some(u) {
        assert x in s' || x == last;
      }
    }
  }

  // ---- Counting --------------------------------------------------------------

  function Count<T(==)>(s: seq<T>, x: T): (n: nat) {
    multiset(s)[x]
  }

  lemma CountConcat<T>(a: seq<T>, b: seq<T>, x: T)
    ensures Count(a + b, x) == Count(a, x) + Count(b, x)
  {
  }

  predicate Distinct<T(==)>(s: seq<T>) {
    forall i, j :: 0 <= i < j < |s| ==> s[i] != s[j]
  }

  /** In a list without repetition every member occurs once. */
  lemma {:induction false} DistinctCount<T>(s: seq<T>, x: T)
    requires Distinct(s)
    ensures Count(s, x) == if x in s then 1 else 0
  {
    if s != [] {
      assert s == [s[0]] + s[1..];
      DistinctCount(s[1..], x);
    }
  }

  lemma TwoPlacesCountTwice<T>(s: seq<T>, i: nat, j: nat)
    requires i < j < |s| && s[i] == s[j]
    ensures Count(s, s[i]) >= 2
  {
    assert s == s[..j] + s[j..];
    CountConcat(s[..j], s[j..], s[i]);
    assert s[..j][i] in s[..j] && s[j..][0] in s[j..];
  }

  lemma CountedTwiceHasTwoPlaces<T>(s: seq<T>, x: T) returns (i: nat, j: nat)
    requires Count(s, x) > 1
    ensures i < j < |s| && s[i] == x == s[j]
  {
    assert x in s;
    i :| 0 <= i < |s| && s[i] == x;
    if x in s[i + 1..] {
      var k :| 0 <= k < |s| - i - 1 && s[i + 1..][k] == x;
      j := i + 1 + k;
    } else {
      assert s == s[..i] + ([x] + s[i + 1..]);
      CountConcat(s[..i], [x] + s[i + 1..], x);
      assert x in s[..i];
      var k :| 0 <= k < i && s[..i][k] == x;
      i, j := k, i;
    }
  }

  lemma CountDistinct<T>(s: seq<T>)
    requires forall x :: x in s ==> Count(s, x) == 1
    ensures Distinct(s)
  {
    forall i, j | 0 <= i < j < |s|
      ensures s[i] != s[j]
    {
      assert s[i] in s;
      if s[i] == s[j] {
        TwoPlacesCountTwice(s, i, j);
      }
    }
  }

  /** Rearranging keeps members distinct. */
  lemma RearrangeDistinct<T>(a: seq<T>, b: seq<T>)
    requires Distinct(a) && multiset(a) == multiset(b)
    ensures Distinct(b)
  {
    SameMembers(a, b);
    forall x | x in b
      ensures Count(b, x) == 1
    {
      DistinctCount(a, x);
    }
    CountDistinct(b);
  }

  lemma {:induction false} DistinctSize<T>(s: seq<T>)
    requires Distinct(s)
    ensures |set x | x in s| == |s|
  {
    if s != [] {
      var n := |s| - 1;
      DistinctSize(s[..n]);
      assert (set x | x in s) == (set x | x in s[..n]) + {s[n]};
    }
  }

  /** Lists without repetition and with the same members are rearrangements. */
  lemma SameSetSameMultiset<T>(a: seq<T>, b: seq<T>)
    requires Distinct(a) && Distinct(b) && forall x :: x in a <==> x in b
    ensures multiset(a) == multiset(b)
  {
    forall x
      ensures multiset(a)[x] == multiset(b)[x]
    {
      DistinctCount(a, x);
      DistinctCount(b, x);
      assert Count(a, x) == Count(b, x);
    }
  }

  /** The head of a list can be taken out of any rearrangement of it. */
  lemma TakeOut<T>(a: seq<T>, b: seq<T>) returns (k: nat)
    requires a != [] && multiset(a) == multiset(b)
    ensures k < |b| && b == b[..k] + [a[0]] + b[k + 1..]
    ensures multiset(a[1..]) == multiset(b[..k] + b[k + 1..])
  {
    SameMembers(a, b);
    assert a[0] in b;
    k :| 0 <= k < |b| && b[k] == a[0];
    Without(a, 0);
    assert a[..0] + a[1..] == a[1..];
    Without(b, k);
  }

  /** A list with one place cut out. */
  lemma Without<T>(s: seq<T>, k: nat)
    requires k < |s|
    ensures s == s[..k] + [s[k]] + s[k + 1..]
    ensures multiset(s[..k] + s[k + 1..]) == multiset(s) - multiset{s[k]}
  {
    assert s == s[..k] + [s[k]] + s[k + 1..];
    assert multiset(s) == multiset(s[..k]) + multiset{s[k]} + multiset(s[k + 1..]);
  }

  // ---- LIMIT -----------------------------------------------------------------

  function Take<T>(s: seq<T>, n: nat): (r: seq<T>)
    ensures |r| == if |s| <= n then |s| else n
    ensures r <= s
  {
    if |s| <= n then s else s[..n]
  }

  // ---- ORDER BY --------------------------------------------------------------

  /** `before` orders the members of `s` strictly and totally. */
  ghost predicate TotalOn<T(!new)>(s: seq<T>, before: (T, T) -> bool) {
    && (forall x :: x in s ==> !before(x, x))
    && (forall x, y :: x in s && y in s && x != y ==> before(x, y) || before(y, x))
    && (forall x, y, z :: x in s && y in s && z in s && before(x, y) && before(y, z) ==> before(x, z))
  }

  ghost predicate Ordered<T>(s: seq<T>, before: (T, T) -> bool) {
    forall i, j :: 0 <= i < j < |s| ==> !before(s[j], s[i])
  }

  /** Insertion after every equal element, which makes the sort stable. */
  function Insert<T>(x: T, s: seq<T>, before: (T, T) -> bool): seq<T> {
    if s == [] || !before(s[0], x) then [x] + s else [s[0]] + Insert(x, s[1..], before)
  }

  function Sort<T>(s: seq<T>, before: (T, T) -> bool): seq<T> {
    if s == [] then [] else Insert(s[0], Sort(s[1..], before), before)
  }

  lemma {:induction false} InsertMembers<T>(x: T, s: seq<T>, before: (T, T) -> bool)
    ensures multiset(Insert(x, s, before)) == multiset([x] + s)
  {
    if s != [] && before(s[0], x) {
      InsertMembers(x, s[1..], before);
      assert [x] + s == [x] + [s[0]] + s[1..];
    }
  }

  /** Sorting permutes. */
  lemma {:induction false} SortMembers<T>(s: seq<T>, before: (T, T) -> bool)
    ensures multiset(Sort(s, before)) == multiset(s)
    ensures |Sort(s, before)| == |s|
  {
    if s != [] {
      SortMembers(s[1..], before);
      InsertMembers(s[0], Sort(s[1..], before), before);
      assert s == [s[0]] + s[1..];
    }
    assert |multiset(Sort(s, before))| == |Sort(s, before)|;
  }

  lemma SameMembers<T>(a: seq<T>, b: seq<T>)
    requires multiset(a) == multiset(b)
    ensures |a| == |b|
    ensures forall x :: x in a <==> x in b
  {
    assert |multiset(a)| == |a| && |multiset(b)| == |b|;
    forall x
      ensures x in a <==> x in b
    {
      assert x in a <==> x in multiset(a);
      assert x in b <==> x in multiset(b);
    }
  }

  lemma {:induction false} InsertOrdered<T(!new)>(x: T, s: seq<T>, before: (T, T) -> bool)
    requires TotalOn([x] + s, before) && Ordered(s, before)
    ensures Ordered(Insert(x, s, before), before)
  {
    var r := Insert(x, s, before);
    if s == [] {
    } else if !before(s[0], x) {
      forall i, j | 0 <= i < j < |r|
        ensures !before(r[j], r[i])
      {
        assert forall k :: 0 <= k < |s| ==> s[k] in [x] + s;
        if i == 0 && j > 1 {
          assert !before(s[j - 1], s[0]);
          assert x in [x] + s;
        }
      }
    } else {
      forall y | y in [x] + s[1..]
        ensures y in [x] + s
      {
      }
      InsertOrdered(x, s[1..], before);
      InsertMembers(x, s[1..], before);
      SameMembers(Insert(x, s[1..], before), [x] + s[1..]);
      var t := Insert(x, s[1..], before);
      forall j | 0 <= j < |t|
        ensures !before(t[j], s[0])
      {
        assert t[j] in [x] + s[1..];
        assert x in [x] + s && s[0] in [x] + s;
        if t[j] != x {
          var k :| 0 <= k < |s[1..]| && s[1..][k] == t[j];
          assert s[k + 1] == t[j];
        }
      }
    }
  }

  /** Sorting orders. */
  lemma {:induction false} SortOrdered<T(!new)>(s: seq<T>, before: (T, T) -> bool)
    requires TotalOn(s, before)
    ensures Ordered(Sort(s, before), before)
  {
    if s != [] {
      var t := Sort(s[1..], before);
      SortOrdered(s[1..], before);
      SortMembers(s[1..], before);
      SameMembers(t, s[1..]);
      assert forall y :: y in [s[0]] + t ==> y in s;
      InsertOrdered(s[0], t, before);
    }
  }

  /** Nothing sorts before the head of an ordered list. */
  lemma HeadIsFirst<T(!new)>(s: seq<T>, x: T, before: (T, T) -> bool)
    requires x in s && Ordered(s, before) && !before(s[0], s[0])
    ensures !before(x, s[0])
  {
  }

  lemma SameHead<T(!new)>(a: seq<T>, b: seq<T>, before: (T, T) -> bool)
    requires TotalOn(a, before) && Ordered(a, before) && Ordered(b, before)
    requires multiset(a) == multiset(b) && a != []
    ensures |b| == |a| && a[0] == b[0]
  {
    SameMembers(a, b);
    assert b[0] in a && a[0] in b;
    HeadIsFirst(a, b[0], before);
    HeadIsFirst(b, a[0], before);
  }

  /** Two ordered arrangements of the same members are the same list. */
  lemma {:induction false} OrderedUnique<T(!new)>(a: seq<T>, b: seq<T>, before: (T, T) -> bool)
    requires TotalOn(a, before) && Ordered(a, before) && Ordered(b, before)
    requires multiset(a) == multiset(b)
    ensures a == b
  {
    SameMembers(a, b);
    if a != [] {
      SameHead(a, b, before);
      TailMembers(a);
      TailMembers(b);
      TailTotal(a, before);
      OrderedUnique(a[1..], b[1..], before);
    }
  }

  lemma TailMembers<T>(s: seq<T>)
    requires s != []
    ensures s == [s[0]] + s[1..] && multiset(s[1..]) == multiset(s) - multiset{s[0]}
  {
    assert s == [s[0]] + s[1..];
  }

  lemma TailTotal<T(!new)>(s: seq<T>, before: (T, T) -> bool)
    requires s != [] && TotalOn(s, before)
    ensures TotalOn(s[1..], before)
  {
    assert forall x :: x in s[1..] ==> x in s;
  }

  /** Sorting forgets the order its input arrived in. */
  lemma SortCanonical<T(!new)>(a: seq<T>, b: seq<T>, before: (T, T) -> bool)
    requires TotalOn(a, before) && multiset(a) == multiset(b)
    ensures Sort(a, before) == Sort(b, before)
  {
    SameMembers(a, b);
    SortOrdered(a, before);
    SortOrdered(b, before);
    SortMembers(a, before);
    SortMembers(b, before);
    SameMembers(a, Sort(a, before));
    OrderedUnique(Sort(a, before), Sort(b, before), before);
  }

  /** The first `n` of an ordering: what ORDER BY .. LIMIT returns. Everything left out sorts
      after everything taken. */
  lemma FirstOfSort<T(!new)>(s: seq<T>, before: (T, T) -> bool, n: nat)
    requires TotalOn(s, before) && Distinct(s)
    ensures var first := Take(Sort(s, before), n);
            && Distinct(first)
            && |first| == (if |s| <= n then |s| else n)
            && (forall x :: x in first ==> x in s)
            && (|s| <= n ==> forall x :: x in s ==> x in first)
            && (forall x, y :: x in first && y in s && y !in first ==> before(x, y))
  {
    var sorted := Sort(s, before);
    var first := Take(sorted, n);
    SortMembers(s, before);
    SortOrdered(s, before);
    SameMembers(s, sorted);
    RearrangeDistinct(s, sorted);
    forall x, y | x in first && y in s && y !in first
      ensures before(x, y)
    {
      var i :| 0 <= i < |first| && first[i] == x;
      var j :| 0 <= j < |sorted| && sorted[j] == y;
      assert sorted[i] == x && i < j;
      assert !before(sorted[j], sorted[i]);
    }
  }

  // ---- String order ------------------------------------------------------------

  lemma LastIsLater<T(!new)>(a: seq<T>, before: (T, T) -> bool, x: T)
    requires a != [] && forall i, j :: 0 <= i < j < |a| ==> before(a[i], a[j])
    requires forall x, y :: !(before(x, y) && before(y, x))
    ensures x in a[..|a| - 1] <==> x in a && x != a[|a| - 1]
  {
    var m := |a| - 1;
    assert a == a[..m] + [a[m]];
    if x in a[..m] {
      var i :| 0 <= i < m && a[..m][i] == x;
      assert before(a[i], a[m]);
    }
  }

  /** Two strictly ascending lists of the same members are the same list. */
  lemma {:induction false} AscendingUnique<T(!new)>(a: seq<T>, b: seq<T>, before: (T, T) -> bool)
    requires forall x :: x in a <==> x in b
    requires forall i, j :: 0 <= i < j < |a| ==> before(a[i], a[j])
    requires forall i, j :: 0 <= i < j < |b| ==> before(b[i], b[j])
    requires forall x, y :: !(before(x, y) && before(y, x))
    ensures a == b
  {
    assert a == [] <==> b == [] by {
      if a != [] { assert a[0] in b; }
      if b != [] { assert b[0] in a; }
    }
    if a != [] {
      var m, n := |a| - 1, |b| - 1;
      assert a[m] in b && b[n] in a;
      assert a[m] == b[n];
      forall x
        ensures x in a[..m] <==> x in b[..n]
      {
        LastIsLater(a, before, x);
        LastIsLater(b, before, x);
      }
      AscendingUnique(a[..m], b[..n], before);
    }
  }

  /** Lexicographic order by character code: SQLite's BINARY collation and Python's `<`. */
  predicate StringLess(a: string, b: string) {
    if b == "" then false
    else if a == "" then true
    else a[0] < b[0] || (a[0] == b[0] && StringLess(a[1..], b[1..]))
  }

  /** Code point by code point: the first difference decides, else the shorter comes first. */
  lemma {:induction false} StringLessExact(a: string, b: string)
    ensures StringLess(a, b) <==>
              exists k :: 0 <= k <= |a| && k < |b| && a[..k] == b[..k] && (k == |a| || a[k] < b[k])
  {
    if a != "" && b != "" && a[0] == b[0] {
      StringLessExact(a[1..], b[1..]);
      if k :| 0 <= k <= |a[1..]| && k < |b[1..]| && a[1..][..k] == b[1..][..k] && (k == |a[1..]| || a[1..][k] < b[1..][k]) {
        assert a[..k + 1] == [a[0]] + a[1..][..k] && b[..k + 1] == [b[0]] + b[1..][..k];
      }
      if k :| 0 <= k <= |a| && k < |b| && a[..k] == b[..k] && (k == |a| || a[k] < b[k]) {
        assert k > 0;
        assert a[1..][..k - 1] == a[..k][1..] && b[1..][..k - 1] == b[..k][1..];
      }
    } else if StringLess(a, b) {
      assert a[..0] == b[..0];
    } else if k :| 0 <= k <= |a| && k < |b| && a[..k] == b[..k] && (k == |a| || a[k] < b[k]) {
      if k > 0 {
        SameStart(a, b, k);
      }
    }
  }

  lemma SameStart(a: string, b: string, k: nat)
    requires 0 < k <= |a| && k < |b| && a[..k] == b[..k]
    ensures a[0] == b[0]
  {
    assert a[..k][0] == b[..k][0];
  }

  lemma {:induction false} StringLessTotal(a: string, b: string)
    ensures !(StringLess(a, b) && StringLess(b, a))
    ensures a != b ==> StringLess(a, b) || StringLess(b, a)
    ensures a == b ==> !StringLess(a, b)
  {
    if a != "" && b != "" && a[0] == b[0] {
      StringLessTotal(a[1..], b[1..]);
      assert a == [a[0]] + a[1..] && b == [b[0]] + b[1..];
    }
  }

  lemma {:induction false} StringLessTransitive(a: string, b: string, c: string)
    requires StringLess(a, b) && StringLess(b, c)
    ensures StringLess(a, c)
  {
    if a != "" && a[0] == b[0] && b[0] == c[0] {
      StringLessTransitive(a[1..], b[1..], c[1..]);
    }
  }

  function Alphabetical(): (string, string) -> bool {
    (a: string, b: string) => StringLess(a, b)
  }

  lemma AlphabeticalTotal(s: seq<string>)
    ensures TotalOn(s, Alphabetical())
  {
    var before := Alphabetical();
    forall x, y, z | x in s && y in s && z in s
      ensures !before(x, x)
      ensures x != y ==> before(x, y) || before(y, x)
      ensures before(x, y) && before(y, z) ==> before(x, z)
    {
      StringLessTotal(x, x);
      StringLessTotal(x, y);
      if StringLess(x, y) && StringLess(y, z) {
        StringLessTransitive(x, y, z);
      }
    }
  }
}
