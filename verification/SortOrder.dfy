/** What the order of the sort is. */
module SortOrder {
  import opened Names
  import opened CausalOrder

  // ----- the order of names -----

  /** Code-point order: a prefix comes first, and otherwise the first difference decides. */
  ghost predicate CodePointLe(a: string, b: string) {
    a <= b || exists k :: DifferAt(a, b, k) && a[k] < b[k]
  }

  ghost predicate DifferAt(a: string, b: string, k: int) {
    0 <= k < |a| && k < |b| && a[..k] == b[..k] && a[k] != b[k]
  }

  lemma DifferLater(a: string, b: string, k: nat)
    requires a != [] && b != [] && a[0] == b[0]
    ensures DifferAt(a[1..], b[1..], k) <==> DifferAt(a, b, k + 1)
  {
    if k + 1 < |a| && k + 1 < |b| {
      assert a[..k+1] == [a[0]] + a[1..][..k] && b[..k+1] == [b[0]] + b[1..][..k];
    }
  }

  lemma {:induction false} LeIsCodePointOrder(a: string, b: string)
    ensures Le(a, b) <==> CodePointLe(a, b)
  {
    if a == [] {
    } else if b == [] {
    } else if a[0] != b[0] {
      assert DifferAt(a, b, 0);
      assert forall k :: DifferAt(a, b, k) ==> k == 0;
    } else {
      LeIsCodePointOrder(a[1..], b[1..]);
      assert a == [a[0]] + a[1..] && b == [b[0]] + b[1..];
      if CodePointLe(a[1..], b[1..]) && !(a[1..] <= b[1..]) {
        var k :| DifferAt(a[1..], b[1..], k) && a[1..][k] < b[1..][k];
        DifferLater(a, b, k);
        assert DifferAt(a, b, k + 1) && a[k+1] < b[k+1];
      }
      if CodePointLe(a, b) && !(a <= b) {
        var k :| DifferAt(a, b, k) && a[k] < b[k];
        DifferLater(a, b, k - 1);
        assert DifferAt(a[1..], b[1..], k - 1) && a[1..][k-1] < b[1..][k-1];
      }
    }
  }

  // ----- waves -----

  /** The last position at which a parent of `n` stands, or -1. */
  function LastParent(deps: Deps, q: seq<string>, n: string): int {
    if q == [] then -1
    else if q[|q|-1] in Parents(deps, n) then |q| - 1
    else LastParent(deps, q[..|q|-1], n)
  }

  /** `a` may stand before `b`: its last parent stands earlier, or they share it and the names decide. */
  ghost predicate MayPrecede(deps: Deps, q: seq<string>, a: string, b: string) {
    LastParent(deps, q, a) < LastParent(deps, q, b)
    || (LastParent(deps, q, a) == LastParent(deps, q, b) && CodePointLe(a, b))
  }

  /** First come, first served: by the last parent, and then by name. */
  ghost predicate InWaves(deps: Deps, q: seq<string>, all: seq<string>) {
    forall i, j :: 0 <= i < j < |all| ==> MayPrecede(deps, q, all[i], all[j])
  }

  /** Each name once, after all of its parents, missing ones included, and nothing left out that could be listed. */
  ghost predicate Complete(deps: Deps, q: seq<string>) {
    && NoDuplicates(q) && Causal(deps, q)
    && forall n :: n in q <==> n in Nodes(deps) && Ready(deps, q, n)
  }

  lemma {:induction false} LastParentIs(deps: Deps, q: seq<string>, n: string)
    ensures -1 <= LastParent(deps, q, n) < |q|
    ensures LastParent(deps, q, n) >= 0 ==> q[LastParent(deps, q, n)] in Parents(deps, n)
    ensures forall k :: LastParent(deps, q, n) < k < |q| ==> q[k] !in Parents(deps, n)
  {
    if q != [] && q[|q|-1] !in Parents(deps, n) {
      LastParentIs(deps, q[..|q|-1], n);
    }
  }

  lemma LastParentSnoc(deps: Deps, q: seq<string>, node: string, n: string)
    ensures LastParent(deps, q + [node], n) == if node in Parents(deps, n) then |q| else LastParent(deps, q, n)
  {
    assert (q + [node])[..|q|] == q;
  }

  lemma {:induction false} LastParentOfPrefix(deps: Deps, q: seq<string>, i: nat, n: string)
    requires i <= |q| && forall k :: i <= k < |q| ==> q[k] !in Parents(deps, n)
    ensures LastParent(deps, q, n) == LastParent(deps, q[..i], n)
  {
    if i < |q| {
      LastParentOfPrefix(deps, q[..|q|-1], i, n);
      assert q[..|q|-1][..i] == q[..i];
    } else {
      assert q[..i] == q;
    }
  }

  // ----- draining keeps the waves -----

  lemma StaysInWaves(deps: Deps, popped: seq<string>, node: string, a: string, b: string)
    requires MayPrecede(deps, popped, a, b) && node !in Parents(deps, a) && node !in Parents(deps, b)
    ensures MayPrecede(deps, popped + [node], a, b)
  {
    LastParentSnoc(deps, popped, node, a);
    LastParentSnoc(deps, popped, node, b);
  }

  lemma FreedComesLast(deps: Deps, popped: seq<string>, node: string, a: string, b: string)
    requires node !in Parents(deps, a) && node in Parents(deps, b)
    ensures MayPrecede(deps, popped + [node], a, b)
  {
    LastParentSnoc(deps, popped, node, a);
    LastParentSnoc(deps, popped, node, b);
    LastParentIs(deps, popped, a);
  }

  lemma FreedAlike(deps: Deps, popped: seq<string>, node: string, a: string, b: string)
    requires node in Parents(deps, a) && node in Parents(deps, b) && Le(a, b)
    ensures MayPrecede(deps, popped + [node], a, b)
  {
    LastParentSnoc(deps, popped, node, a);
    LastParentSnoc(deps, popped, node, b);
    LeIsCodePointOrder(a, b);
  }

  /** Whoever is listed already has no parent that is popped only now. */
  lemma ListedHasOldParents(deps: Deps, popped: seq<string>, queue: seq<string>, n: string)
    requires Scheduled(deps, popped, queue) && queue != [] && n in popped + queue
    ensures queue[0] !in Parents(deps, n)
  {
    PoppedIsNew(popped, queue);
  }

  lemma ListedStayInWaves(deps: Deps, popped: seq<string>, queue: seq<string>)
    requires Scheduled(deps, popped, queue) && queue != [] && InWaves(deps, popped, popped + queue)
    ensures InWaves(deps, popped + [queue[0]], popped + queue)
  {
    var listed := popped + queue;
    forall i, j | 0 <= i < j < |listed| ensures MayPrecede(deps, popped + [queue[0]], listed[i], listed[j]) {
      ListedHasOldParents(deps, popped, queue, listed[i]);
      ListedHasOldParents(deps, popped, queue, listed[j]);
      StaysInWaves(deps, popped, queue[0], listed[i], listed[j]);
    }
  }

  lemma FreedAreInWaves(deps: Deps, popped: seq<string>, node: string, freed: seq<string>)
    requires NonDecreasing(freed) && forall n :: n in freed ==> node in Parents(deps, n)
    ensures InWaves(deps, popped + [node], freed)
  {
    forall i, j | 0 <= i < j < |freed| ensures MayPrecede(deps, popped + [node], freed[i], freed[j]) {
      FreedAlike(deps, popped, node, freed[i], freed[j]);
    }
  }

  lemma JoinedInWaves(deps: Deps, q: seq<string>, a: seq<string>, b: seq<string>)
    requires InWaves(deps, q, a) && InWaves(deps, q, b)
    requires forall x, y :: x in a && y in b ==> MayPrecede(deps, q, x, y)
    ensures InWaves(deps, q, a + b)
  {
  }

  lemma PopKeepsWaves(deps: Deps, popped: seq<string>, queue: seq<string>)
    requires Scheduled(deps, popped, queue) && queue != [] && InWaves(deps, popped, popped + queue)
    ensures var freed := InOrder(Freed(deps, Elems(popped), queue[0]));
            InWaves(deps, popped + [queue[0]], (popped + [queue[0]]) + (queue[1..] + freed))
  {
    var node, freed := queue[0], InOrder(Freed(deps, Elems(popped), queue[0]));
    PopRegroups(popped, queue, freed);
    ListedStayInWaves(deps, popped, queue);
    FreedAreInWaves(deps, popped, node, freed);
    forall x, y | x in popped + queue && y in freed ensures MayPrecede(deps, popped + [node], x, y) {
      ListedHasOldParents(deps, popped, queue, x);
      FreedComesLast(deps, popped, node, x, y);
    }
    JoinedInWaves(deps, popped + [node], popped + queue, freed);
  }

  lemma {:induction false} DrainsInWaves(deps: Deps, popped: seq<string>, queue: seq<string>)
    requires Scheduled(deps, popped, queue) && InWaves(deps, popped, popped + queue)
    ensures InWaves(deps, Drain(deps, popped, queue), Drain(deps, popped, queue))
    decreases |Nodes(deps)| - |popped + queue|, |queue|
  {
    if queue == [] {
      assert popped + queue == popped;
    } else {
      DrainStep(deps, popped, queue);
      PopKeepsWaves(deps, popped, queue);
      DrainsInWaves(deps, popped + [queue[0]], queue[1..] + InOrder(Freed(deps, Elems(popped), queue[0])));
    }
  }

  lemma RootsInWaves(deps: Deps)
    ensures InWaves(deps, [], [] + InOrder(Roots(deps)))
  {
    var roots := InOrder(Roots(deps));
    assert [] + roots == roots;
    forall i, j | 0 <= i < j < |roots| ensures MayPrecede(deps, [], roots[i], roots[j]) {
      LeIsCodePointOrder(roots[i], roots[j]);
    }
  }

  /** The order of the sort is a complete listing in waves, less the names of missing parents. */
  lemma {:induction false} OrderedInWaves(deps: Deps) returns (q: seq<string>)
    ensures Complete(deps, q) && InWaves(deps, q, q) && Ordered(deps) == Existing(deps, q)
  {
    RootsScheduled(deps);
    RootsInWaves(deps);
    var roots := InOrder(Roots(deps));
    q := Drain(deps, [], roots);
    DrainEnds(deps, [], roots);
    DrainsInWaves(deps, [], roots);
    assert q + [] == q;
  }

  // ----- there is only one such listing -----

  /** The last parent of a name that is ready after `i` names is among these. */
  lemma SameLastParent(deps: Deps, q: seq<string>, i: nat, j: nat)
    requires NoDuplicates(q) && i <= j < |q| && Ready(deps, q[..i], q[j])
    ensures LastParent(deps, q, q[j]) == LastParent(deps, q[..i], q[j])
  {
    forall k | i <= k < |q| ensures q[k] !in Parents(deps, q[j]) {
      NotInPrefix(q, i, k);
    }
    LastParentOfPrefix(deps, q, i, q[j]);
  }

  lemma NotInPrefix(q: seq<string>, i: nat, k: nat)
    requires NoDuplicates(q) && i <= k < |q|
    ensures q[k] !in q[..i]
  {
  }

  lemma CodePointLeAntisymmetric(a: string, b: string)
    requires CodePointLe(a, b) && CodePointLe(b, a)
    ensures a == b
  {
    LeIsCodePointOrder(a, b);
    LeIsCodePointOrder(b, a);
    LeAntisymmetric(a, b);
  }

  lemma PositionFrom(q: seq<string>, r: seq<string>, i: nat, n: string) returns (j: nat)
    requires n in r && i <= |r| && i < |q| && q[..i] == r[..i] && NoDuplicates(q) && n == q[i]
    ensures i <= j < |r| && r[j] == n
  {
    NotInPrefix(q, i, i);
    j :| 0 <= j < |r| && r[j] == n;
  }

  /** Whatever one complete listing holds, the other holds too: by position in the first. */
  lemma {:induction false} AllReadyListed(deps: Deps, q: seq<string>, r: seq<string>, i: nat)
    requires Complete(deps, q) && Complete(deps, r) && i < |q|
    ensures q[i] in r
  {
    forall p | p in Parents(deps, q[i]) ensures p in r {
      assert Ready(deps, q[..i], q[i]);
      var k :| 0 <= k < i && q[..i][k] == p;
      AllReadyListed(deps, q, r, k);
    }
    assert q[i] in q;
  }

  /** Seen from one listing: its next name goes before the other listing's next name. */
  lemma GoesBefore(deps: Deps, q: seq<string>, r: seq<string>, i: nat)
    requires Complete(deps, q) && InWaves(deps, q, q) && Complete(deps, r)
    requires i < |q| && i < |r| && q[..i] == r[..i] && q[i] != r[i]
    ensures MayPrecede(deps, q[..i], q[i], r[i])
  {
    AllReadyListed(deps, r, q, i);
    var b := PositionFrom(r, q, i, r[i]);
    assert b != i;
    assert Ready(deps, q[..i], q[i]) && Ready(deps, r[..i], r[i]);
    SameLastParent(deps, q, i, i);
    SameLastParent(deps, q, i, b);
    assert MayPrecede(deps, q, q[i], q[b]);
  }

  lemma NextAgrees(deps: Deps, q: seq<string>, r: seq<string>, i: nat)
    requires Complete(deps, q) && InWaves(deps, q, q) && Complete(deps, r) && InWaves(deps, r, r)
    requires i < |q| && i < |r| && q[..i] == r[..i]
    ensures q[i] == r[i]
  {
    if q[i] != r[i] {
      GoesBefore(deps, q, r, i);
      GoesBefore(deps, r, q, i);
      CodePointLeAntisymmetric(q[i], r[i]);
    }
  }

  lemma {:induction false} AgreeUpTo(deps: Deps, q: seq<string>, r: seq<string>, i: nat)
    requires Complete(deps, q) && InWaves(deps, q, q) && Complete(deps, r) && InWaves(deps, r, r)
    requires i <= |q| && i <= |r|
    ensures q[..i] == r[..i]
  {
    if i > 0 {
      AgreeUpTo(deps, q, r, i - 1);
      NextAgrees(deps, q, r, i - 1);
      assert q[..i] == q[..i-1] + [q[i-1]] && r[..i] == r[..i-1] + [r[i-1]];
    }
  }

  lemma PrefixIsAll(deps: Deps, q: seq<string>, r: seq<string>)
    requires Complete(deps, q) && Complete(deps, r) && |r| <= |q| && q[..|r|] == r
    ensures |r| == |q|
  {
    if |r| < |q| {
      NotInPrefix(q, |r|, |r|);
      AllReadyListed(deps, q, r, |r|);
    }
  }

  /** Two complete listings in waves are the same: the dependency map and the order of names determine the sort. */
  lemma {:induction false} WavesAreUnique(deps: Deps, q: seq<string>, r: seq<string>)
    requires Complete(deps, q) && InWaves(deps, q, q) && Complete(deps, r) && InWaves(deps, r, r)
    ensures q == r
  {
    var n := if |q| < |r| then |q| else |r|;
    AgreeUpTo(deps, q, r, n);
    assert q[..|q|] == q && r[..|r|] == r;
    if |r| <= |q| { PrefixIsAll(deps, q, r); } else { PrefixIsAll(deps, r, q); }
  }

  // ----- what follows for the artifacts -----

  /** Two artifacts of the order stand in the same order in the full listing. */
  lemma {:induction false} StandInOrder(deps: Deps, q: seq<string>, i: nat, j: nat) returns (k: nat, m: nat)
    requires i < j < |Existing(deps, q)|
    ensures k < m < |q| && q[k] == Existing(deps, q)[i] && q[m] == Existing(deps, q)[j]
  {
    var front := q[..|q|-1];
    if j < |Existing(deps, front)| {
      k, m := StandInOrder(deps, front, i, j);
    } else {
      m := |q| - 1;
      ExistingProperties(deps, front);
      assert Existing(deps, front)[i] in Existing(deps, front);
      k :| 0 <= k < |front| && front[k] == Existing(deps, front)[i];
    }
  }

  lemma ParentlessHasNoLast(deps: Deps, q: seq<string>, n: string)
    requires Complete(deps, q) && n in q
    ensures LastParent(deps, q, n) == -1 <==> Parents(deps, n) == []
  {
    LastParentIs(deps, q, n);
    if Parents(deps, n) != [] {
      assert Parents(deps, n)[0] in Parents(deps, n);
      var k :| 0 <= k < |q| && q[k] == Parents(deps, n)[0];
    }
  }

  /** Artifacts without parents come first, in code-point order. */
  lemma {:induction false} RootsComeFirst(deps: Deps, i: nat, j: nat)
    requires i < j < |Ordered(deps)|
    ensures Parents(deps, Ordered(deps)[j]) == [] ==>
              Parents(deps, Ordered(deps)[i]) == [] && CodePointLe(Ordered(deps)[i], Ordered(deps)[j])
  {
    var q := OrderedInWaves(deps);
    var k, m := StandInOrder(deps, q, i, j);
    ParentlessHasNoLast(deps, q, q[k]);
    ParentlessHasNoLast(deps, q, q[m]);
    LastParentIs(deps, q, q[k]);
    assert MayPrecede(deps, q, q[k], q[m]);
  }

  /** A chain of names, each one a parent of the one before; the last may be the name of a missing parent. */
  ghost predicate NameChain(deps: Deps, path: seq<string>) {
    path != [] && forall i :: 0 <= i < |path| - 1 ==> path[i+1] in Parents(deps, path[i])
  }

  lemma ChainPrepend(deps: Deps, n: string, path: seq<string>)
    requires NameChain(deps, path) && path[0] in Parents(deps, n)
    ensures NameChain(deps, [n] + path)
  {
    var longer := [n] + path;
    forall i | 0 <= i < |longer| - 1 ensures longer[i+1] in Parents(deps, longer[i]) {
      if i > 0 { assert longer[i] == path[i-1] && longer[i+1] == path[i-1+1]; }
    }
  }

  lemma ChainRest(deps: Deps, path: seq<string>)
    requires NameChain(deps, path) && |path| > 1
    ensures NameChain(deps, path[1..]) && path[1] in Parents(deps, path[0])
  {
    assert path[0+1] in Parents(deps, path[0]);
    forall i | 0 <= i < |path[1..]| - 1 ensures path[1..][i+1] in Parents(deps, path[1..][i]) {
      assert path[1..][i] == path[i+1] && path[1..][i+1] == path[i+1+1];
    }
  }

  lemma ParentPosition(deps: Deps, q: seq<string>, k: nat, p: string) returns (a: nat)
    requires Complete(deps, q) && k < |q| && p in Parents(deps, q[k])
    ensures a < k && q[a] == p && a <= LastParent(deps, q, q[k]) < k
  {
    assert Ready(deps, q[..k], q[k]);
    a :| 0 <= a < k && q[..k][a] == p;
    LastParentIs(deps, q, q[k]);
    var last := LastParent(deps, q, q[k]);
    var m :| 0 <= m < k && q[..k][m] == q[last];
    assert q[m] == q[last];
  }

  lemma {:induction false} LaterChains(deps: Deps, q: seq<string>, k: nat, m: nat, path: seq<string>)
    returns (longer: seq<string>)
    requires Complete(deps, q) && InWaves(deps, q, q) && k < m < |q| && NameChain(deps, path) && path[0] == q[k]
    ensures NameChain(deps, longer) && longer[0] == q[m] && |longer| >= |path|
    decreases m
  {
    if |path| == 1 {
      longer := [q[m]];
    } else {
      ChainRest(deps, path);
      var a := ParentPosition(deps, q, k, path[1]);
      assert MayPrecede(deps, q, q[k], q[m]);
      LastParentIs(deps, q, q[m]);
      var last := LastParent(deps, q, q[m]);
      var b := ParentPosition(deps, q, m, q[last]);
      var rest := path[1..];
      if a < last {
        rest := LaterChains(deps, q, a, last, path[1..]);
      }
      ChainPrepend(deps, q[m], rest);
      longer := [q[m]] + rest;
    }
  }

  /** The longest chain of parents never gets shorter along the order. */
  lemma {:induction false} DepthNeverFalls(deps: Deps, i: nat, j: nat, path: seq<string>) returns (longer: seq<string>)
    requires i < j < |Ordered(deps)| && NameChain(deps, path) && path[0] == Ordered(deps)[i]
    ensures NameChain(deps, longer) && longer[0] == Ordered(deps)[j] && |longer| >= |path|
  {
    var q := OrderedInWaves(deps);
    var k, m := StandInOrder(deps, q, i, j);
    longer := LaterChains(deps, q, k, m, path);
  }
}
