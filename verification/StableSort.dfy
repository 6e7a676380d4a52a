/** Python's `list.sort` with a key: a stable sort, given by a total preorder on the elements. It permutes, it sorts,
    and elements that rank alike keep their order. */
module StableSort {

  ghost predicate TotalPreorder<T(!new)>(leq: (T, T) -> bool) {
    && (forall a, b :: leq(a, b) || leq(b, a))
    && (forall a, b, c :: leq(a, b) && leq(b, c) ==> leq(a, c))
  }

  ghost predicate Sorted<T>(q: seq<T>, leq: (T, T) -> bool) {
    forall i, j :: 0 <= i < j < |q| ==> leq(q[i], q[j])
  }

  function Insert<T>(x: T, q: seq<T>, leq: (T, T) -> bool): seq<T> {
    if q == [] || leq(x, q[0]) then [x] + q else [q[0]] + Insert(x, q[1..], leq)
  }

  function Sort<T>(q: seq<T>, leq: (T, T) -> bool): seq<T> {
    if q == [] then [] else Insert(q[0], Sort(q[1..], leq), leq)
  }

  lemma {:induction false} InsertPermutes<T>(x: T, q: seq<T>, leq: (T, T) -> bool)
    ensures multiset(Insert(x, q, leq)) == multiset(q) + multiset{x}
  {
    if q != [] && !leq(x, q[0]) {
      InsertPermutes(x, q[1..], leq);
      assert q == [q[0]] + q[1..];
    }
  }

  lemma {:induction false} Permutes<T>(q: seq<T>, leq: (T, T) -> bool)
    ensures multiset(Sort(q, leq)) == multiset(q)
    ensures |Sort(q, leq)| == |q|
  {
    if q != [] {
      Permutes(q[1..], leq);
      InsertPermutes(q[0], Sort(q[1..], leq), leq);
      assert q == [q[0]] + q[1..];
    }
    assert |multiset(Sort(q, leq))| == |multiset(q)|;
  }

  lemma {:induction false} InsertSorts<T(!new)>(x: T, q: seq<T>, leq: (T, T) -> bool)
    requires TotalPreorder(leq) && Sorted(q, leq)
    ensures Sorted(Insert(x, q, leq), leq)
  {
    if q == [] {
    } else if leq(x, q[0]) {
      forall j | 0 <= j < |q| ensures leq(x, q[j]) {
        if j > 0 { assert leq(q[0], q[j]); }
      }
    } else {
      var rest := Insert(x, q[1..], leq);
      InsertSorts(x, q[1..], leq);
      InsertPermutes(x, q[1..], leq);
      forall j | 0 <= j < |rest| ensures leq(q[0], rest[j]) {
        assert rest[j] in multiset(rest);
        assert rest[j] in q[1..] || rest[j] == x;
      }
    }
  }

  lemma {:induction false} Sorts<T(!new)>(q: seq<T>, leq: (T, T) -> bool)
    requires TotalPreorder(leq)
    ensures Sorted(Sort(q, leq), leq)
  {
    if q != [] {
      Sorts(q[1..], leq);
      InsertSorts(q[0], Sort(q[1..], leq), leq);
    }
  }

  /** The elements that rank with `e`, in order. */
  function Ties<T>(q: seq<T>, e: T, leq: (T, T) -> bool): seq<T> {
    if q == [] then [] else (if leq(q[0], e) && leq(e, q[0]) then [q[0]] else []) + Ties(q[1..], e, leq)
  }

  lemma {:induction false} InsertKeepsTies<T(!new)>(x: T, q: seq<T>, e: T, leq: (T, T) -> bool)
    requires TotalPreorder(leq)
    ensures Ties(Insert(x, q, leq), e, leq)
         == if leq(x, e) && leq(e, x) then [x] + Ties(q, e, leq) else Ties(q, e, leq)
  {
    if q == [] || leq(x, q[0]) {
      assert ([x] + q)[1..] == q;
    } else {
      var rest := Insert(x, q[1..], leq);
      InsertKeepsTies(x, q[1..], e, leq);
      assert ([q[0]] + rest)[1..] == rest;
      if leq(x, e) && leq(e, x) {
        assert Ties(q, e, leq) == Ties(q[1..], e, leq);
      }
    }
  }

  /** Elements that rank alike keep their order. */
  lemma {:induction false} KeepsTies<T(!new)>(q: seq<T>, e: T, leq: (T, T) -> bool)
    requires TotalPreorder(leq)
    ensures Ties(Sort(q, leq), e, leq) == Ties(q, e, leq)
  {
    if q != [] {
      KeepsTies(q[1..], e, leq);
      InsertKeepsTies(q[0], Sort(q[1..], leq), e, leq);
    }
  }

  lemma {:induction false} TiesConcat<T>(a: seq<T>, b: seq<T>, e: T, leq: (T, T) -> bool)
    ensures Ties(a + b, e, leq) == Ties(a, e, leq) + Ties(b, e, leq)
  {
    if a == [] {
      assert a + b == b;
    } else {
      assert (a + b)[1..] == a[1..] + b;
      TiesConcat(a[1..], b, e, leq);
    }
  }
}
