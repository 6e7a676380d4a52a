/** Names of artifacts and the code-point order that Python's `sorted` uses on strings: every set of names has exactly
    one sorted listing. */
module Names {

  /** Lexicographic order by code point. */
  predicate Le(a: string, b: string) {
    a == [] || (b != [] && (a[0] < b[0] || (a[0] == b[0] && Le(a[1..], b[1..]))))
  }

  lemma {:induction false} LeTotal(a: string, b: string)
    ensures Le(a, b) || Le(b, a)
  {
    if a != [] && b != [] {
      LeTotal(a[1..], b[1..]);
    }
  }

  lemma {:induction false} LeAntisymmetric(a: string, b: string)
    requires Le(a, b) && Le(b, a)
    ensures a == b
  {
    if a != [] && b != [] {
      LeAntisymmetric(a[1..], b[1..]);
      assert a == [a[0]] + a[1..] && b == [b[0]] + b[1..];
    }
  }

  lemma {:induction false} LeTransitive(a: string, b: string, c: string)
    requires Le(a, b) && Le(b, c)
    ensures Le(a, c)
  {
    if a != [] && a[0] == b[0] && b[0] == c[0] {
      LeTransitive(a[1..], b[1..], c[1..]);
    }
  }

  ghost predicate NonDecreasing(q: seq<string>) {
    forall i, j :: 0 <= i < j < |q| ==> Le(q[i], q[j])
  }

  ghost predicate NoDuplicates(q: seq<string>) {
    forall i, j :: 0 <= i < j < |q| ==> q[i] != q[j]
  }

  /** `q` lists exactly the members of `s`, each once, in order. */
  ghost predicate Lists(q: seq<string>, s: set<string>) {
    NonDecreasing(q) && NoDuplicates(q) && forall x :: x in q <==> x in s
  }

  /** Insertion of one name into a sorted list. */
  function Insert(x: string, q: seq<string>): (r: seq<string>)
    ensures multiset(r) == multiset(q) + multiset{x}
  {
    if q == [] || Le(x, q[0]) then [x] + q else
      assert q == [q[0]] + q[1..];
      [q[0]] + Insert(x, q[1..])
  }

  lemma InsertMembers(x: string, q: seq<string>)
    ensures forall y :: y in Insert(x, q) <==> y == x || y in q
  {
    forall y ensures y in Insert(x, q) <==> y == x || y in q {
      assert y in Insert(x, q) <==> y in multiset(Insert(x, q));
      assert y in q <==> y in multiset(q);
    }
  }

  lemma {:induction false} InsertSorted(x: string, q: seq<string>)
    requires NonDecreasing(q)
    ensures NonDecreasing(Insert(x, q))
  {
    if q == [] {
    } else if Le(x, q[0]) {
      forall i | 0 <= i < |q| ensures Le(x, q[i]) {
        if i > 0 { LeTransitive(x, q[0], q[i]); }
      }
    } else {
      var rest := Insert(x, q[1..]);
      InsertSorted(x, q[1..]);
      InsertMembers(x, q[1..]);
      LeTotal(x, q[0]);
      forall j | 0 <= j < |rest| ensures Le(q[0], rest[j]) {
        assert rest[j] in rest;
      }
    }
  }

  /** Python's `sorted` on a list of names. */
  function Sorted(q: seq<string>): (r: seq<string>)
    ensures NonDecreasing(r)
    ensures multiset(r) == multiset(q)
  {
    if q == [] then [] else
      assert q == [q[0]] + q[1..];
      InsertSorted(q[0], Sorted(q[1..]));
      Insert(q[0], Sorted(q[1..]))
  }

  /** The one sorted list of the members of a set. */
  ghost function InOrder(s: set<string>): (q: seq<string>)
    ensures Lists(q, s)
    decreases s
  {
    if s == {} then [] else
      var x :| x in s;
      var rest := InOrder(s - {x});
      InsertListed(x, rest, s - {x});
      assert s == s - {x} + {x};
      Insert(x, rest)
  }

  lemma InsertListed(x: string, q: seq<string>, s: set<string>)
    requires Lists(q, s) && x !in s
    ensures Lists(Insert(x, q), s + {x})
  {
    InsertSorted(x, q);
    InsertMembers(x, q);
    var r := Insert(x, q);
    forall i, j | 0 <= i < j < |r| ensures r[i] != r[j] {
      if r[i] == r[j] {
        assert r == r[..j] + [r[j]] + r[j+1..];
        assert r[i] in multiset(r[..j]);
        assert multiset(r)[r[j]] >= 2;
        MultiplicityOfDistinct(q, r[j]);
        assert false;
      }
    }
  }

  lemma {:induction false} MultiplicityOfDistinct(q: seq<string>, x: string)
    requires NoDuplicates(q)
    ensures multiset(q)[x] <= 1
  {
    if q != [] {
      assert q == [q[0]] + q[1..];
      MultiplicityOfDistinct(q[1..], x);
      if x == q[0] && x in q[1..] {
        assert false;
      }
    }
  }

  /** A set has only one sorted listing, so a sorted result does not depend on iteration order. */
  lemma {:induction false} ListingUnique(q: seq<string>, r: seq<string>, s: set<string>)
    requires Lists(q, s) && Lists(r, s)
    ensures q == r
    decreases |q|
  {
    assert r != [] ==> r[0] in s;
    if q != [] {
      assert q[0] in s && r != [] by { assert q[0] in r; }
      assert r[0] in q;
      var i :| 0 <= i < |r| && r[i] == q[0];
      var j :| 0 <= j < |q| && q[j] == r[0];
      if i > 0 && j > 0 {
        LeAntisymmetric(q[0], r[0]);
      }
      assert q[0] == r[0];
      var t := s - {q[0]};
      ListsTail(q, s);
      ListsTail(r, s);
      ListingUnique(q[1..], r[1..], t);
      assert q == [q[0]] + q[1..] && r == [r[0]] + r[1..];
    }
  }

  lemma ListsTail(q: seq<string>, s: set<string>)
    requires Lists(q, s) && q != []
    ensures Lists(q[1..], s - {q[0]})
  {
    forall x ensures x in q[1..] <==> x in s - {q[0]} {
      if x in s - {q[0]} {
        var i :| 0 <= i < |q| && q[i] == x;
        assert x == q[1..][i-1];
      }
    }
  }

  /** `sorted` applied to the members of a set, which Python enumerates in an arbitrary order. */
  method SortSet(s: set<string>) returns (q: seq<string>)
    ensures q == InOrder(s)
  {
    q := [];
    var todo := s;
    while todo != {}
      invariant todo <= s && Lists(q, s - todo)
      decreases todo
    {
      var x :| x in todo;
      InsertListed(x, q, s - todo);
      assert s - todo + {x} == s - (todo - {x});
      q := Insert(x, q);
      todo := todo - {x};
    }
    ListingUnique(q, InOrder(s), s);
  }
}
