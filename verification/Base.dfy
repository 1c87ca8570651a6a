/** Shared vocabulary: options, results, the byte order on strings that
    `sort.Strings` uses, and a stable sort with its two guarantees. */
module Base {

  datatype Option<+T> = None | Some(value: T)

  datatype Result<+T, +E> = Ok(value: T) | Err(error: E)

  /** Lexicographic order on strings. */
  predicate Less(a: string, b: string) {
    b != [] && (a == [] || a[0] < b[0] || (a[0] == b[0] && Less(a[1..], b[1..])))
  }

  lemma {:induction false} LessIrreflexive(a: string)
    ensures !Less(a, a)
  {
    if a != [] { LessIrreflexive(a[1..]); }
  }

  lemma {:induction false} LessTransitive(a: string, b: string, c: string)
    requires Less(a, b) && Less(b, c)
    ensures Less(a, c)
  {
    if a != [] && a[0] == b[0] && b[0] == c[0] {
      LessTransitive(a[1..], b[1..], c[1..]);
    }
  }

  lemma {:induction false} LessTotal(a: string, b: string)
    ensures Less(a, b) || a == b || Less(b, a)
  {
    if a != [] && b != [] && a[0] == b[0] {
      LessTotal(a[1..], b[1..]);
      if a[1..] == b[1..] { assert a == [a[0]] + a[1..] == b; }
    }
  }

  /** The order laws a comparison needs for a sort to mean anything:
      asymmetric, and "not after" is transitive. */
  ghost predicate WeakOrder<T(!new)>(less: (T, T) -> bool) {
    && (forall x, y :: less(x, y) ==> !less(y, x))
    && (forall x, y, z :: !less(y, x) && !less(z, y) ==> !less(z, x))
  }

  lemma StringOrder()
    ensures WeakOrder(Less)
    ensures forall a, b :: !Less(a, b) && !Less(b, a) ==> a == b
  {
    forall x, y | Less(x, y) ensures !Less(y, x) {
      if Less(y, x) { LessTransitive(x, y, x); LessIrreflexive(x); }
    }
    forall x, y, z | !Less(y, x) && !Less(z, y) ensures !Less(z, x) {
      LessTotal(x, y); LessTotal(y, z); LessIrreflexive(x);
      if x != y && y != z { LessTransitive(x, y, z); }
      if Less(z, x) && Less(x, z) { LessTransitive(z, x, z); LessIrreflexive(z); }
    }
    forall a, b ensures Less(a, b) || a == b || Less(b, a) { LessTotal(a, b); }
  }

  ghost predicate SortedBy<T>(less: (T, T) -> bool, s: seq<T>) {
    forall i, j :: 0 <= i < j < |s| ==> !less(s[j], s[i])
  }

  /** Strictly increasing: sorted with nothing repeated. */
  ghost predicate Increasing<T>(less: (T, T) -> bool, s: seq<T>) {
    forall i, j :: 0 <= i < j < |s| ==> less(s[i], s[j])
  }

  function Insert<T>(less: (T, T) -> bool, x: T, s: seq<T>): (r: seq<T>)
    ensures multiset(r) == multiset{x} + multiset(s)
    ensures |r| == |s| + 1
  {
    if s == [] || less(x, s[0]) then [x] + s
    else
      assert s == [s[0]] + s[1..];
      [s[0]] + Insert(less, x, s[1..])
  }

  /** A stable sort standing for `sort.Slice` and `sort.SliceStable`. */
  function Sort<T>(less: (T, T) -> bool, s: seq<T>): (r: seq<T>)
    ensures multiset(r) == multiset(s)
    ensures |r| == |s|
  {
    if s == [] then []
    else
      assert s == s[..|s| - 1] + [s[|s| - 1]];
      Insert(less, s[|s| - 1], Sort(less, s[..|s| - 1]))
  }

  /** The same laws among the members of `s` alone. */
  ghost predicate WeakOrderOn<T(!new)>(less: (T, T) -> bool, s: seq<T>) {
    && (forall x, y :: x in s && y in s && less(x, y) ==> !less(y, x))
    && (forall x, y, z :: x in s && y in s && z in s && !less(y, x) && !less(z, y) ==> !less(z, x))
  }

  lemma {:induction false} InsertSorted<T(!new)>(less: (T, T) -> bool, x: T, s: seq<T>)
    requires WeakOrderOn(less, [x] + s) && SortedBy(less, s)
    ensures SortedBy(less, Insert(less, x, s))
  {
    if s != [] && !less(x, s[0]) {
      assert forall y :: y in [x] + s[1..] ==> y in [x] + s;
      InsertSorted(less, x, s[1..]);
      var rest := Insert(less, x, s[1..]);
      forall j | 0 <= j < |rest| ensures !less(rest[j], s[0]) {
        assert rest[j] in multiset(rest);
        assert rest[j] == x || rest[j] in multiset(s[1..]);
        if rest[j] != x {
          var k :| 0 <= k < |s[1..]| && s[1..][k] == rest[j];
          assert s[k + 1] == rest[j];
        }
      }
    } else if s != [] {
      assert x in [x] + s && s[0] in [x] + s;
      forall j | 0 <= j < |s| ensures !less(s[j], x) {
        assert s[j] in [x] + s;
        assert j > 0 ==> !less(s[j], s[0]);
      }
    }
  }

  lemma SortSorts<T(!new)>(less: (T, T) -> bool, s: seq<T>)
    requires WeakOrder(less)
    ensures SortedBy(less, Sort(less, s))
  {
    SortSortsOn(less, s);
  }

  lemma {:induction false} SortSortsOn<T(!new)>(less: (T, T) -> bool, s: seq<T>)
    requires WeakOrderOn(less, s)
    ensures SortedBy(less, Sort(less, s))
  {
    if s != [] {
      var n := |s| - 1;
      SortSortsOn(less, s[..n]);
      SortMembers(less, s[..n]);
      assert forall y :: y in [s[n]] + Sort(less, s[..n]) ==> y in s;
      InsertSorted(less, s[n], Sort(less, s[..n]));
    }
  }

  lemma SameMembers<T>(a: seq<T>, b: seq<T>)
    requires multiset(a) == multiset(b)
    ensures forall x :: x in a <==> x in b
  {
    forall x ensures x in a <==> x in b {
      assert x in a <==> x in multiset(a);
      assert x in b <==> x in multiset(b);
    }
  }

  lemma SortMembers<T>(less: (T, T) -> bool, s: seq<T>)
    ensures forall x :: x in Sort(less, s) <==> x in s
  {
    SameMembers(Sort(less, s), s);
  }

  ghost predicate Distinct<T>(s: seq<T>) {
    forall i, j :: 0 <= i < j < |s| ==> s[i] != s[j]
  }

  lemma {:induction false} DistinctIsMultiplicityOne<T>(s: seq<T>)
    ensures Distinct(s) <==> forall x :: multiset(s)[x] <= 1
  {
    if s != [] {
      var n := |s| - 1;
      assert s == s[..n] + [s[n]];
      DistinctIsMultiplicityOne(s[..n]);
      assert s[n] in s[..n] <==> s[n] in multiset(s[..n]);
      assert multiset(s) == multiset(s[..n]) + multiset{s[n]};
      if Distinct(s) {
        assert s[n] !in s[..n];
        assert Distinct(s[..n]);
      } else {
        if Distinct(s[..n]) {
          var i, j :| 0 <= i < j < |s| && s[i] == s[j];
          assert j == n && s[..n][i] == s[n];
          assert multiset(s)[s[n]] >= 2;
        } else {
          var x :| multiset(s[..n])[x] > 1;
          assert multiset(s)[x] > 1;
        }
      }
    }
  }

  /** Sorting a duplicate-free sequence under an order that tells its
      elements apart gives a strictly increasing one. */
  lemma SortDistinct<T(!new)>(less: (T, T) -> bool, s: seq<T>)
    requires WeakOrder(less) && Distinct(s)
    requires forall x, y :: x in s && y in s && x != y ==> less(x, y) || less(y, x)
    ensures Increasing(less, Sort(less, s))
  {
    SortDistinctOn(less, s);
  }

  lemma SortDistinctOn<T(!new)>(less: (T, T) -> bool, s: seq<T>)
    requires WeakOrderOn(less, s) && Distinct(s)
    requires forall x, y :: x in s && y in s && x != y ==> less(x, y) || less(y, x)
    ensures Increasing(less, Sort(less, s))
  {
    var r := Sort(less, s);
    SortSortsOn(less, s);
    SortMembers(less, s);
    DistinctIsMultiplicityOne(s);
    DistinctIsMultiplicityOne(r);
    forall i, j | 0 <= i < j < |r| ensures less(r[i], r[j]) {
      assert r[i] in r && r[j] in r;
    }
  }

  lemma LeastFirst<T(!new)>(less: (T, T) -> bool, s: seq<T>, x: T)
    requires WeakOrder(less) && Increasing(less, s) && x in s
    ensures x == s[0] || less(s[0], x)
    ensures x in s[1..] <==> less(s[0], x)
  {
  }

  /** Two strictly increasing sequences with the same members are equal. */
  lemma {:induction false} IncreasingUnique<T(!new)>(less: (T, T) -> bool, a: seq<T>, b: seq<T>)
    requires WeakOrder(less)
    requires Increasing(less, a) && Increasing(less, b)
    requires forall x :: x in a <==> x in b
    ensures a == b
  {
    assert a != [] ==> a[0] in a;
    assert b != [] ==> b[0] in b;
    if a != [] {
      LeastFirst(less, b, a[0]);
      LeastFirst(less, a, b[0]);
      assert a[0] == b[0];
      forall x ensures x in a[1..] <==> x in b[1..] {
        if x in a { LeastFirst(less, a, x); LeastFirst(less, b, x); }
        assert x in a[1..] ==> x in a;
        assert x in b[1..] ==> x in b;
      }
      IncreasingUnique(less, a[1..], b[1..]);
      assert a == [a[0]] + a[1..];
      assert b == [b[0]] + b[1..];
    }
  }

  /** Under an order that tells elements apart, sorted arrangements of one
      multiset are equal. */
  lemma {:induction false} SortedUnique<T(!new)>(less: (T, T) -> bool, a: seq<T>, b: seq<T>)
    requires WeakOrder(less)
    requires forall x, y :: !less(x, y) && !less(y, x) ==> x == y
    requires SortedBy(less, a) && SortedBy(less, b)
    requires multiset(a) == multiset(b)
    ensures a == b
  {
    assert |a| == |multiset(a)| == |b|;
    if a != [] {
      SameMembers(a, b);
      SortedHeads(less, a, b);
      assert a == [a[0]] + a[1..];
      assert b == [b[0]] + b[1..];
      assert multiset(a[1..]) == multiset(a) - multiset{a[0]};
      assert multiset(b[1..]) == multiset(b) - multiset{b[0]};
      hide SortedBy;
      assert SortedBy(less, a[1..]) && SortedBy(less, b[1..]) by { SortedTail(less, a); SortedTail(less, b); }
      SortedUnique(less, a[1..], b[1..]);
    }
  }

  lemma SortedTail<T(!new)>(less: (T, T) -> bool, s: seq<T>)
    requires s != [] && SortedBy(less, s)
    ensures SortedBy(less, s[1..])
  {
  }

  lemma SortedHeads<T(!new)>(less: (T, T) -> bool, a: seq<T>, b: seq<T>)
    requires WeakOrder(less) && a != [] && b != []
    requires forall x, y :: !less(x, y) && !less(y, x) ==> x == y
    requires SortedBy(less, a) && SortedBy(less, b)
    requires a[0] in b && b[0] in a
    ensures a[0] == b[0]
  {
  }

  function Filter<T(!new)>(keep: T -> bool, s: seq<T>): (r: seq<T>)
    ensures forall x :: x in r <==> x in s && keep(x)
    ensures |r| <= |s|
  {
    if s == [] then []
    else if keep(s[0]) then [s[0]] + Filter(keep, s[1..])
    else Filter(keep, s[1..])
  }

  lemma {:induction false} FilterAppend<T(!new)>(keep: T -> bool, s: seq<T>, t: seq<T>)
    ensures Filter(keep, s + t) == Filter(keep, s) + Filter(keep, t)
  {
    if s == [] {
      assert s + t == t;
    } else {
      assert (s + t)[0] == s[0] && (s + t)[1..] == s[1..] + t;
      FilterAppend(keep, s[1..], t);
      var rest, more := Filter(keep, s[1..]), Filter(keep, t);
      assert [s[0]] + (rest + more) == ([s[0]] + rest) + more;
    }
  }

  function Join(sep: string, parts: seq<string>): string {
    if parts == [] then ""
    else if |parts| == 1 then parts[0]
    else parts[0] + sep + Join(sep, parts[1..])
  }

  predicate IsLeast(x: string, s: set<string>) {
    x in s && forall y :: y in s && y != x ==> Less(x, y)
  }

  lemma {:induction false} LeastExists(s: set<string>)
    requires s != {}
    ensures exists x :: IsLeast(x, s)
    decreases |s|
  {
    var x :| x in s;
    var rest := s - {x};
    if rest == {} {
      assert s == {x};
      assert IsLeast(x, s);
    } else {
      LeastExists(rest);
      var y :| IsLeast(y, rest);
      LessTotal(x, y);
      StringOrder();
      if Less(x, y) {
        forall z | z in s && z != x ensures Less(x, z) {
          if z != y { LessTransitive(x, y, z); }
        }
        assert IsLeast(x, s);
      } else {
        assert IsLeast(y, s);
      }
    }
  }

  function Least(s: set<string>): (x: string)
    requires s != {}
    ensures IsLeast(x, s)
  {
    LeastExists(s);
    StringOrder();
    var x :| IsLeast(x, s);
    x
  }

  lemma IncreasingCons(x: string, rest: seq<string>)
    requires Increasing(Less, rest) && forall y :: y in rest ==> Less(x, y)
    ensures Increasing(Less, [x] + rest)
  {
  }

  /** The keys of a Go map or set, collected and passed to `sort.Strings`. */
  function Ascending(s: set<string>): (r: seq<string>)
    ensures forall x :: x in r <==> x in s
    ensures |r| == |s|
    ensures Increasing(Less, r)
    decreases |s|
  {
    if s == {} then []
    else
      var x := Least(s);
      var rest := Ascending(s - {x});
      IncreasingCons(x, rest);
      [x] + rest
  }

  lemma {:induction false} SubsetSize<T>(a: set<T>, b: set<T>)
    requires a <= b
    ensures |a| <= |b|
  {
    if a != {} {
      var x :| x in a;
      SubsetSize(a - {x}, b - {x});
    }
  }

  function Elements(s: seq<string>): set<string> {
    set x | x in s
  }

  lemma ElementsOfAscending(s: set<string>)
    ensures Elements(Ascending(s)) == s
  {
  }

  lemma AscendingOfFew(s: seq<string>)
    requires |s| <= 1
    ensures Ascending(Elements(s)) == s
  {
    hide Ascending;
    var t := Elements(s);
    var r := Ascending(t);
    if s == [] {
      assert t == {};
    } else {
      assert t == {s[0]};
      assert |r| == 1 && r[0] in r;
    }
  }
}
