/** A stable sort under a comparison given by the host, and the code unit order. */
module Sorting {
  type Order<!T> = (T, T) -> bool

  /** What the host's comparison is trusted to be: every two strings compare, consistently. */
  ghost predicate IsPreorder<T(!new)>(le: Order<T>) {
    && (forall a, b :: le(a, b) || le(b, a))
    && (forall a, b, c :: le(a, b) && le(b, c) ==> le(a, c))
  }

  /** The comparison tells any two members of `ids` apart. */
  ghost predicate Separates<T>(le: Order<T>, ids: set<T>) {
    forall a, b :: a in ids && b in ids && le(a, b) && le(b, a) ==> a == b
  }

  ghost predicate SortedBy<T>(le: Order<T>, s: seq<T>) {
    forall i, j :: 0 <= i < j < |s| ==> le(s[i], s[j])
  }

  ghost predicate Distinct<T>(s: seq<T>) {
    forall i, j :: 0 <= i < j < |s| ==> s[i] != s[j]
  }

  function Insert<T>(le: Order<T>, x: T, s: seq<T>): seq<T> {
    if s == [] then [x]
    else if le(x, s[0]) then [x] + s
    else [s[0]] + Insert(le, x, s[1..])
  }

  function Sort<T>(le: Order<T>, s: seq<T>): seq<T> {
    if s == [] then [] else Insert(le, s[0], Sort(le, s[1..]))
  }

  lemma {:induction false} InsertAdds<T>(le: Order<T>, x: T, s: seq<T>)
    ensures multiset(Insert(le, x, s)) == multiset(s) + multiset{x}
    decreases |s|
  {
    if s != [] {
      assert s == [s[0]] + s[1..];
      if !le(x, s[0]) { InsertAdds(le, x, s[1..]); }
    }
  }

  /** Sorting neither loses, adds nor changes anything. */
  lemma {:induction false} SortPermutes<T>(le: Order<T>, s: seq<T>)
    ensures multiset(Sort(le, s)) == multiset(s)
    decreases |s|
  {
    if s != [] {
      assert s == [s[0]] + s[1..];
      SortPermutes(le, s[1..]);
      InsertAdds(le, s[0], Sort(le, s[1..]));
    }
  }

  lemma SameMembers<T>(s: seq<T>, t: seq<T>)
    requires multiset(s) == multiset(t)
    ensures |s| == |t| && forall x :: x in s <==> x in t
  {
    assert |s| == |multiset(s)| && |t| == |multiset(t)|;
    forall x ensures x in s <==> x in t {
      assert x in s <==> x in multiset(s);
      assert x in t <==> x in multiset(t);
    }
  }

  lemma {:induction false} InsertSorted<T(!new)>(le: Order<T>, x: T, s: seq<T>)
    requires IsPreorder(le) && SortedBy(le, s)
    ensures SortedBy(le, Insert(le, x, s))
    decreases |s|
  {
    if s != [] && !le(x, s[0]) {
      var rest := Insert(le, x, s[1..]);
      InsertSorted(le, x, s[1..]);
      InsertAdds(le, x, s[1..]);
      SameMembers(rest, s[1..] + [x]);
      forall j | 0 <= j < |rest| ensures le(s[0], rest[j]) {
        assert rest[j] in s[1..] + [x];
      }
    }
  }

  lemma {:induction false} SortSorts<T(!new)>(le: Order<T>, s: seq<T>)
    requires IsPreorder(le)
    ensures SortedBy(le, Sort(le, s))
    decreases |s|
  {
    if s != [] {
      SortSorts(le, s[1..]);
      InsertSorted(le, s[0], Sort(le, s[1..]));
    }
  }

  lemma {:induction false} DistinctByCount<T(!new)>(s: seq<T>)
    ensures Distinct(s) <==> forall x :: multiset(s)[x] <= 1
    decreases |s|
  {
    if s != [] {
      assert s == [s[0]] + s[1..];
      DistinctByCount(s[1..]);
      if Distinct(s) {
        assert Distinct(s[1..]);
        forall x ensures multiset(s)[x] <= 1 {
          if x == s[0] {
            assert x !in s[1..];
            assert x !in multiset(s[1..]);
          }
        }
      } else {
        var i, j :| 0 <= i < j < |s| && s[i] == s[j];
        if i == 0 {
          assert s[j] == s[1..][j - 1];
          assert s[0] in multiset(s[1..]);
          assert multiset(s)[s[0]] >= 2;
        } else {
          assert s[1..][i - 1] == s[1..][j - 1];
          var x :| multiset(s[1..])[x] > 1;
          assert multiset(s)[x] > 1;
        }
      }
    }
  }

  /** Order by UTF-16 code units, the default of the host's `sort`. */
  predicate CodeUnitLe(a: string, b: string) {
    a == [] || (b != [] && (a[0] < b[0] || (a[0] == b[0] && CodeUnitLe(a[1..], b[1..]))))
  }

  lemma {:induction false} CodeUnitTotal(a: string, b: string)
    ensures CodeUnitLe(a, b) || CodeUnitLe(b, a)
    decreases |a|
  {
    if a != [] && b != [] { CodeUnitTotal(a[1..], b[1..]); }
  }

  lemma {:induction false} CodeUnitTransitive(a: string, b: string, c: string)
    requires CodeUnitLe(a, b) && CodeUnitLe(b, c)
    ensures CodeUnitLe(a, c)
    decreases |a|
  {
    if a != [] && a[0] == b[0] == c[0] { CodeUnitTransitive(a[1..], b[1..], c[1..]); }
  }

  lemma {:induction false} CodeUnitAntisymmetric(a: string, b: string)
    requires CodeUnitLe(a, b) && CodeUnitLe(b, a)
    ensures a == b
    decreases |a|
  {
    if a != [] {
      CodeUnitAntisymmetric(a[1..], b[1..]);
      assert a == [a[0]] + a[1..] && b == [b[0]] + b[1..];
    }
  }

  lemma CodeUnitIsTotalOrder()
    ensures IsPreorder(CodeUnitLe)
    ensures forall a, b :: CodeUnitLe(a, b) && CodeUnitLe(b, a) ==> a == b
  {
    forall a, b ensures CodeUnitLe(a, b) || CodeUnitLe(b, a) { CodeUnitTotal(a, b); }
    forall a, b, c | CodeUnitLe(a, b) && CodeUnitLe(b, c) ensures CodeUnitLe(a, c) { CodeUnitTransitive(a, b, c); }
    forall a, b | CodeUnitLe(a, b) && CodeUnitLe(b, a) ensures a == b { CodeUnitAntisymmetric(a, b); }
  }

  lemma HeadIsFirst<T(!new)>(le: Order<T>, s: seq<T>, x: T)
    requires SortedBy(le, s) && x in s
    ensures x == s[0] || le(s[0], x)
  {
    var i :| 0 <= i < |s| && s[i] == x;
    assert i == 0 || le(s[0], s[i]);
  }

  lemma TailMultiset<T>(s: seq<T>)
    requires s != []
    ensures multiset(s[1..]) == multiset(s) - multiset{s[0]}
  {
    assert s == [s[0]] + s[1..];
  }

  /** Under an order that tells members apart, sorting has one result only. */
  lemma {:induction false} SortedIsUnique<T(!new)>(le: Order<T>, a: seq<T>, b: seq<T>)
    requires SortedBy(le, a) && SortedBy(le, b) && multiset(a) == multiset(b)
    requires forall x, y :: x in a && y in a && le(x, y) && le(y, x) ==> x == y
    ensures a == b
    decreases |a|
  {
    SameMembers(a, b);
    if a != [] {
      assert a[0] in a && b[0] in b;
      HeadIsFirst(le, b, a[0]);
      HeadIsFirst(le, a, b[0]);
      TailMultiset(a);
      TailMultiset(b);
      SortedIsUnique(le, a[1..], b[1..]);
      assert a == [a[0]] + a[1..] && b == [b[0]] + b[1..];
    }
  }

  // ---------- Stability ----------

  /** `a` comes first, and `b` somewhere behind it. */
  predicate Precedes<T(==)>(s: seq<T>, a: T, b: T) {
    s != [] && s[0] != b && if s[0] == a then b in s[1..] else Precedes(s[1..], a, b)
  }

  lemma {:induction false} PrecedesOneWay<T>(s: seq<T>, a: T, b: T)
    requires Precedes(s, a, b)
    ensures !Precedes(s, b, a) && a in s && b in s
    decreases |s|
  {
    if s[0] != a { PrecedesOneWay(s[1..], a, b); }
  }

  lemma {:induction false} PrecedesStays<T>(s: seq<T>, more: seq<T>, a: T, b: T)
    requires Precedes(s, a, b)
    ensures Precedes(s + more, a, b)
    decreases |s|
  {
    assert (s + more)[1..] == s[1..] + more;
    if s[0] != a { PrecedesStays(s[1..], more, a, b); }
  }

  lemma {:induction false} InsertPrecedes<T(!new)>(le: Order<T>, x: T, s: seq<T>, a: T, b: T)
    requires if x == a then a != b && b in s && le(a, b) else x != b && Precedes(s, a, b)
    ensures Precedes(Insert(le, x, s), a, b)
    decreases |s|
  {
    InsertAdds(le, x, s[1..]);
    SameMembers(Insert(le, x, s[1..]), s[1..] + [x]);
    assert ([x] + s)[1..] == s;
    if !le(x, s[0]) {
      if s[0] != a { InsertPrecedes(le, x, s[1..], a, b); }
      assert Insert(le, x, s)[1..] == Insert(le, x, s[1..]);
    }
  }

  /** A sort leaves two members in their order if the first one may come first. */
  lemma {:induction false} SortPrecedes<T(!new)>(le: Order<T>, s: seq<T>, a: T, b: T)
    requires Precedes(s, a, b) && a != b && le(a, b)
    ensures Precedes(Sort(le, s), a, b)
    decreases |s|
  {
    if s[0] == a {
      SortPermutes(le, s[1..]);
      SameMembers(Sort(le, s[1..]), s[1..]);
    } else {
      SortPrecedes(le, s[1..], a, b);
    }
    InsertPrecedes(le, s[0], Sort(le, s[1..]), a, b);
  }

  /** The code unit order: a prefix comes first, otherwise the first difference decides. */
  lemma {:induction false} CodeUnitsDecide(a: string, b: string, k: nat)
    requires k <= |a| && k <= |b| && a[..k] == b[..k] && (k < |a| && k < |b| ==> a[k] != b[k])
    ensures k == |a| ==> CodeUnitLe(a, b)
    ensures k == |b| < |a| ==> !CodeUnitLe(a, b)
    ensures k < |a| && k < |b| ==> (CodeUnitLe(a, b) <==> a[k] < b[k])
    decreases k
  {
    if k > 0 {
      assert a[0] == a[..k][0] == b[0] && a[1..][..k - 1] == a[..k][1..] == b[1..][..k - 1];
      CodeUnitsDecide(a[1..], b[1..], k - 1);
    }
  }
}
