/** The causal order of artifacts. */
module CausalOrder {
  import opened Names

  /** Artifact name -> parent names, as read from `created_after`: repeats, missing parents and cycles allowed. */
  type Deps = map<string, seq<string>>

  // ----- the graph -----

  function Parents(deps: Deps, n: string): seq<string> {
    if n in deps then deps[n] else []
  }

  ghost function Elems(q: seq<string>): set<string> {
    set x | x in q
  }

  /** Every artifact, and every name that appears as a parent. */
  ghost function Nodes(deps: Deps): set<string> {
    deps.Keys + set n, p | n in deps && p in deps[n] :: p
  }

  /** A path of existing artifacts, each one a parent of the one before. */
  ghost predicate Chain(deps: Deps, path: seq<string>) {
    |path| >= 2
    && (forall x :: x in path ==> x in deps)
    && forall i :: 0 <= i < |path| - 1 ==> path[i+1] in deps[path[i]]
  }

  ghost predicate ChainFrom(deps: Deps, path: seq<string>, n: string, a: string) {
    Chain(deps, path) && path[0] == n && path[|path|-1] == a
  }

  /** `a` is an ancestor of `n`: reachable over one or more parent links through existing artifacts. */
  ghost predicate IsAncestor(deps: Deps, n: string, a: string) {
    exists path :: ChainFrom(deps, path, n, a)
  }

  lemma ParentIsAncestor(deps: Deps, n: string, p: string)
    requires n in deps && p in deps && p in deps[n]
    ensures IsAncestor(deps, n, p)
  {
    assert ChainFrom(deps, [n, p], n, p);
  }

  lemma AncestorTransitive(deps: Deps, n: string, m: string, a: string)
    requires IsAncestor(deps, n, m) && IsAncestor(deps, m, a)
    ensures IsAncestor(deps, n, a)
  {
    var p :| ChainFrom(deps, p, n, m);
    var q :| ChainFrom(deps, q, m, a);
    var r := p + q[1..];
    forall i | 0 <= i < |r| - 1 ensures r[i+1] in deps[r[i]] {
      if i >= |p| - 1 { assert r[i] == q[i - |p| + 1]; }
    }
    assert ChainFrom(deps, r, n, a);
  }

  // ----- specification of the sort -----

  /** The nodes that become free when `node` is popped after `done`. */
  ghost function Freed(deps: Deps, done: set<string>, node: string): set<string> {
    set c | c in deps && node in deps[c] && forall p :: p in deps[c] ==> p in done || p == node
  }

  /** Every parent of `n` is in `done`. */
  ghost predicate Ready(deps: Deps, done: seq<string>, n: string) {
    forall p :: p in Parents(deps, n) ==> p in done
  }

  /** Every node comes after all of its parents, the missing ones included. */
  ghost predicate Causal(deps: Deps, q: seq<string>) {
    forall i :: 0 <= i < |q| ==> Ready(deps, q[..i], q[i])
  }

  /** What holds whenever a node is about to be popped. The queue and the popped nodes together are exactly
      the nodes whose every parent has been popped. */
  ghost predicate Scheduled(deps: Deps, popped: seq<string>, queue: seq<string>) {
    && NoDuplicates(popped + queue)
    && (forall n :: n in popped + queue <==> n in Nodes(deps) && Ready(deps, popped, n))
    && Causal(deps, popped)
  }

  ghost function Roots(deps: Deps): set<string> {
    set n | n in Nodes(deps) && Parents(deps, n) == []
  }

  /** What popping `node` frees: the nodes that its pop makes ready. */
  lemma FreedBecomesReady(deps: Deps, popped: seq<string>, node: string, n: string)
    requires node !in popped
    ensures n in Freed(deps, Elems(popped), node) <==>
      n in Nodes(deps) && Ready(deps, popped + [node], n) && !Ready(deps, popped, n)
  {
    if n in Freed(deps, Elems(popped), node) {
      assert node in Parents(deps, n);
      forall p | p in Parents(deps, n) ensures p in popped + [node] {
        assert p in Elems(popped) || p == node;
      }
    }
  }

  lemma DistinctConcat(a: seq<string>, b: seq<string>)
    requires NoDuplicates(a) && NoDuplicates(b) && forall x :: x in b ==> x !in a
    ensures NoDuplicates(a + b)
  {
    forall i, j | 0 <= i < j < |a + b| ensures (a + b)[i] != (a + b)[j] {
      assert j >= |a| ==> (a + b)[j] in b;
      assert i < |a| ==> (a + b)[i] in a;
    }
  }

  lemma CausalExtends(deps: Deps, popped: seq<string>, node: string)
    requires Causal(deps, popped) && Ready(deps, popped, node)
    ensures Causal(deps, popped + [node])
  {
    var popped' := popped + [node];
    forall i | 0 <= i < |popped'| ensures Ready(deps, popped'[..i], popped'[i]) {
      assert popped'[..i] == popped[..i];
      if i < |popped| { assert popped'[i] == popped[i]; }
    }
  }

  /** One iteration keeps the schedule. */
  lemma {:induction false} PopKeepsSchedule(deps: Deps, popped: seq<string>, queue: seq<string>)
    requires Scheduled(deps, popped, queue) && queue != []
    ensures Scheduled(deps, popped + [queue[0]], queue[1..] + InOrder(Freed(deps, Elems(popped), queue[0])))
  {
    var node := queue[0];
    var freed := InOrder(Freed(deps, Elems(popped), node));
    PoppedIsNew(popped, queue);
    HeadIsReady(deps, popped, queue);
    CausalExtends(deps, popped, node);
    PopRegroups(popped, queue, freed);
    AllListedAfterPop(deps, popped, queue, freed);
    DistinctConcat(popped + queue, freed);
  }

  lemma HeadIsReady(deps: Deps, popped: seq<string>, queue: seq<string>)
    requires Scheduled(deps, popped, queue) && queue != []
    ensures Ready(deps, popped, queue[0])
  {
    assert queue[0] in popped + queue;
  }

  lemma PopRegroups(popped: seq<string>, queue: seq<string>, freed: seq<string>)
    requires queue != []
    ensures (popped + [queue[0]]) + (queue[1..] + freed) == (popped + queue) + freed
  {
  }

  lemma AllListedAfterPop(deps: Deps, popped: seq<string>, queue: seq<string>, freed: seq<string>)
    requires Scheduled(deps, popped, queue) && queue != [] && queue[0] !in popped
    requires forall n :: n in freed <==> n in Freed(deps, Elems(popped), queue[0])
    ensures forall n :: n in (popped + queue) + freed <==> n in Nodes(deps) && Ready(deps, popped + [queue[0]], n)
    ensures forall n :: n in freed ==> n !in popped + queue
  {
    forall n
      ensures n in (popped + queue) + freed <==> n in Nodes(deps) && Ready(deps, popped + [queue[0]], n)
    {
      ListedAfterPop(deps, popped, queue, freed, n);
    }
    forall n | n in freed ensures n !in popped + queue {
      ListedAfterPop(deps, popped, queue, freed, n);
    }
  }

  lemma ListedAfterPop(deps: Deps, popped: seq<string>, queue: seq<string>, freed: seq<string>, n: string)
    requires queue != [] && queue[0] !in popped
    requires n in popped + queue <==> n in Nodes(deps) && Ready(deps, popped, n)
    requires n in freed <==> n in Freed(deps, Elems(popped), queue[0])
    ensures n in (popped + queue) + freed <==> n in Nodes(deps) && Ready(deps, popped + [queue[0]], n)
    ensures n in freed ==> n !in popped + queue
  {
    FreedBecomesReady(deps, popped, queue[0], n);
    StaysReady(deps, popped, queue[0], n);
  }

  lemma StaysReady(deps: Deps, popped: seq<string>, node: string, n: string)
    ensures Ready(deps, popped, n) ==> Ready(deps, popped + [node], n)
  {
  }

  lemma PoppedIsNew(popped: seq<string>, queue: seq<string>)
    requires NoDuplicates(popped + queue) && queue != []
    ensures queue[0] !in popped
  {
    assert (popped + queue)[|popped|] == queue[0];
    assert forall i | 0 <= i < |popped| :: (popped + queue)[i] == popped[i];
  }

  lemma RootsScheduled(deps: Deps)
    ensures Scheduled(deps, [], InOrder(Roots(deps)))
  {
    assert [] + InOrder(Roots(deps)) == InOrder(Roots(deps));
    forall n ensures n in InOrder(Roots(deps)) <==> n in Nodes(deps) && Ready(deps, [], n) {
      var ps := Parents(deps, n);
      assert ps != [] ==> ps[0] in ps;
    }
  }

  lemma PoppedBounded(deps: Deps, q: seq<string>)
    requires NoDuplicates(q) && forall n :: n in q ==> n in Nodes(deps)
    ensures |q| <= |Nodes(deps)|
  {
    DistinctLength(q);
    SubsetSize(Elems(q), Nodes(deps));
  }

  lemma {:induction false} DistinctLength(q: seq<string>)
    requires NoDuplicates(q)
    ensures |Elems(q)| == |q|
  {
    if q != [] {
      var front := q[..|q|-1];
      assert q == front + [q[|q|-1]];
      DistinctLength(front);
      assert Elems(q) == Elems(front) + {q[|q|-1]};
    }
  }

  lemma SubsetSize(a: set<string>, b: set<string>)
    requires a <= b
    ensures |a| <= |b|
  {
    assert |b - a| == |b| - |a * b|;
    assert a * b == a;
  }

  /** All pops, from a given schedule to the empty queue. */
  ghost function Drain(deps: Deps, popped: seq<string>, queue: seq<string>): seq<string>
    requires Scheduled(deps, popped, queue)
    decreases |Nodes(deps)| - |popped + queue|, |queue|
  {
    if queue == [] then popped
    else
      PopKeepsSchedule(deps, popped, queue);
      var freed := InOrder(Freed(deps, Elems(popped), queue[0]));
      PoppedBounded(deps, (popped + [queue[0]]) + (queue[1..] + freed));
      Drain(deps, popped + [queue[0]], queue[1..] + freed)
  }

  lemma DrainStep(deps: Deps, popped: seq<string>, queue: seq<string>)
    requires Scheduled(deps, popped, queue) && queue != []
    ensures queue[0] !in popped
    ensures var popped', freed := popped + [queue[0]], InOrder(Freed(deps, Elems(popped), queue[0]));
      && Scheduled(deps, popped', queue[1..] + freed)
      && Drain(deps, popped', queue[1..] + freed) == Drain(deps, popped, queue)
      && |popped' + (queue[1..] + freed)| <= |Nodes(deps)|
  {
    PoppedIsNew(popped, queue);
    PopKeepsSchedule(deps, popped, queue);
    var freed := InOrder(Freed(deps, Elems(popped), queue[0]));
    PoppedBounded(deps, (popped + [queue[0]]) + (queue[1..] + freed));
  }

  function Existing(deps: Deps, q: seq<string>): seq<string> {
    if q == [] then []
    else Existing(deps, q[..|q|-1]) + if q[|q|-1] in deps then [q[|q|-1]] else []
  }

  /** The order a build stores: a function of the dependency map alone. */
  ghost function Ordered(deps: Deps): seq<string> {
    RootsScheduled(deps);
    Existing(deps, Drain(deps, [], InOrder(Roots(deps))))
  }

  // ----- what the order is: the three laws -----

  /** Draining ends in a set of nodes closed under "every parent is in it", and keeps the schedule. */
  lemma {:induction false} DrainEnds(deps: Deps, popped: seq<string>, queue: seq<string>)
    requires Scheduled(deps, popped, queue)
    ensures Scheduled(deps, Drain(deps, popped, queue), [])
    decreases |Nodes(deps)| - |popped + queue|, |queue|
  {
    if queue == [] {
    } else {
      PopKeepsSchedule(deps, popped, queue);
      var freed := InOrder(Freed(deps, Elems(popped), queue[0]));
      PoppedBounded(deps, (popped + [queue[0]]) + (queue[1..] + freed));
      DrainEnds(deps, popped + [queue[0]], queue[1..] + freed);
    }
  }

  lemma {:induction false} ExistingProperties(deps: Deps, q: seq<string>)
    ensures forall x :: x in Existing(deps, q) <==> x in q && x in deps
    ensures NoDuplicates(q) ==> NoDuplicates(Existing(deps, q))
  {
    if q != [] {
      var front, last := q[..|q|-1], q[|q|-1];
      assert q == front + [last];
      ExistingProperties(deps, front);
      if NoDuplicates(q) {
        assert last !in front;
      }
    }
  }

  /** Every existing parent of `n` is in `done`. */
  ghost predicate ReadyExisting(deps: Deps, done: seq<string>, n: string) {
    forall p :: p in Parents(deps, n) && p in deps ==> p in done
  }

  /** Every listed artifact comes after all of its existing parents. */
  ghost predicate CausalExisting(deps: Deps, r: seq<string>) {
    forall i :: 0 <= i < |r| ==> ReadyExisting(deps, r[..i], r[i])
  }

  lemma {:induction false} ExistingCausal(deps: Deps, q: seq<string>)
    requires Causal(deps, q)
    ensures CausalExisting(deps, Existing(deps, q))
  {
    if q != [] {
      var front, last := q[..|q|-1], q[|q|-1];
      forall i | 0 <= i < |front| ensures Ready(deps, front[..i], front[i]) {
        assert front[i] == q[i] && front[..i] == q[..i];
      }
      ExistingCausal(deps, front);
      ExistingProperties(deps, front);
      var s, r := Existing(deps, front), Existing(deps, q);
      forall i | 0 <= i < |r| ensures ReadyExisting(deps, r[..i], r[i]) {
        assert r[..i] == s[..i];
        if i < |s| {
          assert ReadyExisting(deps, s[..i], s[i]);
        } else {
          assert Ready(deps, q[..|q|-1], q[|q|-1]);
        }
      }
    }
  }

  ghost predicate OnCycle(deps: Deps, n: string) {
    IsAncestor(deps, n, n)
  }

  /** What the sort leaves out: artifacts on a cycle, and artifacts with an ancestor on a cycle. */
  ghost predicate Blocked(deps: Deps, n: string) {
    OnCycle(deps, n) || exists a :: IsAncestor(deps, n, a) && OnCycle(deps, a)
  }

  /** Each artifact at most once, only artifacts, and each one after all of its existing parents. */
  lemma OrderedIsCausal(deps: Deps)
    ensures var r := Ordered(deps);
      && NoDuplicates(r)
      && (forall x :: x in r ==> x in deps)
      && CausalExisting(deps, r)
  {
    RootsScheduled(deps);
    var q := Drain(deps, [], InOrder(Roots(deps)));
    DrainEnds(deps, [], InOrder(Roots(deps)));
    assert q + [] == q;
    ExistingProperties(deps, q);
    ExistingCausal(deps, q);
  }

  /** The listed artifacts are exactly those whose existing parents are all listed. */
  lemma OrderedIsFixpoint(deps: Deps, n: string)
    requires n in deps
    ensures n in Ordered(deps) <==> ReadyExisting(deps, Ordered(deps), n)
  {
    RootsScheduled(deps);
    var q := Drain(deps, [], InOrder(Roots(deps)));
    DrainEnds(deps, [], InOrder(Roots(deps)));
    assert q + [] == q;
    ExistingProperties(deps, q);
    forall p | p in deps[n] && p !in deps ensures p in q {
      assert p in Nodes(deps) && Parents(deps, p) == [];
      assert Ready(deps, q, p);
    }
    assert n in q <==> Ready(deps, q, n);
  }

  /** Every ancestor of a listed artifact is listed at an earlier index. */
  lemma {:induction false} AncestorsComeEarlier(deps: Deps, i: nat, a: string)
    requires i < |Ordered(deps)| && IsAncestor(deps, Ordered(deps)[i], a)
    ensures a in Ordered(deps)[..i]
  {
    OrderedIsCausal(deps);
    var path :| ChainFrom(deps, path, Ordered(deps)[i], a);
    ChainComesEarlier(deps, i, path);
  }

  lemma ParentListedEarlier(deps: Deps, i: nat, p: string) returns (j: nat)
    requires i < |Ordered(deps)| && p in Parents(deps, Ordered(deps)[i]) && p in deps
    ensures j < i && Ordered(deps)[j] == p
  {
    OrderedIsCausal(deps);
    var r := Ordered(deps);
    assert ReadyExisting(deps, r[..i], r[i]);
    j :| 0 <= j < i && r[..i][j] == p;
  }

  lemma ChainTail(deps: Deps, path: seq<string>)
    requires Chain(deps, path) && |path| > 2
    ensures Chain(deps, path[1..])
  {
    var tail := path[1..];
    forall k | 0 <= k < |tail| - 1 ensures tail[k+1] in deps[tail[k]] {
      assert tail[k] == path[k+1] && tail[k+1] == path[k+2];
    }
  }

  lemma {:induction false} ChainComesEarlier(deps: Deps, i: nat, path: seq<string>)
    requires i < |Ordered(deps)| && Chain(deps, path) && path[0] == Ordered(deps)[i]
    ensures path[|path|-1] in Ordered(deps)[..i]
    decreases |path|
  {
    assert path[0+1] in deps[path[0]];
    var j := ParentListedEarlier(deps, i, path[1]);
    if |path| > 2 {
      ChainTail(deps, path);
      ChainComesEarlier(deps, j, path[1..]);
      assert Ordered(deps)[..j] <= Ordered(deps)[..i];
    } else {
      assert Ordered(deps)[..i][j] == path[1];
    }
  }

  /** A walk over parent links, of any length from one artifact on. */
  ghost predicate Walk(deps: Deps, path: seq<string>) {
    path != []
    && (forall x :: x in path ==> x in deps)
    && forall i :: 0 <= i < |path| - 1 ==> path[i+1] in deps[path[i]]
  }

  lemma WalkExtends(deps: Deps, path: seq<string>, p: string)
    requires Walk(deps, path) && p in deps && p in deps[path[|path|-1]]
    ensures Chain(deps, path + [p])
  {
    var longer := path + [p];
    forall i | 0 <= i < |longer| - 1 ensures longer[i+1] in deps[longer[i]] {
      assert longer[i] == path[i];
      if i < |path| - 1 { assert longer[i+1] == path[i+1]; }
    }
  }

  lemma WalkSuffix(deps: Deps, path: seq<string>, k: nat)
    requires Walk(deps, path) && k < |path|
    ensures Walk(deps, path[k..])
  {
    forall i | 0 <= i < |path[k..]| - 1 ensures path[k..][i+1] in deps[path[k..][i]] {
      assert path[k..][i] == path[k+i] && path[k..][i+1] == path[(k+i)+1];
    }
  }

  /** A walk that comes back to one of its artifacts: its start is on a cycle or leads to one. */
  lemma ClosedWalkBlocks(deps: Deps, path: seq<string>, k: nat)
    requires Walk(deps, path) && k < |path| && path[k] in deps[path[|path|-1]]
    ensures Blocked(deps, path[0])
  {
    var p := path[k];
    WalkSuffix(deps, path, k);
    WalkExtends(deps, path[k..], p);
    assert ChainFrom(deps, path[k..] + [p], p, p);
    WalkExtends(deps, path, p);
    assert ChainFrom(deps, path + [p], path[0], p);
    assert IsAncestor(deps, path[0], p) && OnCycle(deps, p);
  }

  /** An artifact that is not listed has an unlisted parent; following such parents must meet a cycle. */
  lemma {:induction false} UnlistedMeetsCycle(deps: Deps, path: seq<string>)
    requires Walk(deps, path) && NoDuplicates(path)
    requires path[|path|-1] !in Ordered(deps)
    ensures Blocked(deps, path[0])
    decreases |deps| - |path|
  {
    var last := path[|path|-1];
    OrderedIsFixpoint(deps, last);
    var p :| p in deps[last] && p in deps && p !in Ordered(deps);
    if p in path {
      var k :| 0 <= k < |path| && path[k] == p;
      ClosedWalkBlocks(deps, path, k);
    } else {
      WalkExtends(deps, path, p);
      DistinctLength(path + [p]);
      SubsetSize(Elems(path + [p]), deps.Keys);
      UnlistedMeetsCycle(deps, path + [p]);
    }
  }

  /** The sort omits exactly the artifacts that are their own ancestor or have an ancestor that is. */
  lemma {:induction false} OrderedIsComplete(deps: Deps, n: string)
    requires n in deps
    ensures n in Ordered(deps) <==> !Blocked(deps, n)
  {
    if n in Ordered(deps) {
      if Blocked(deps, n) {
        var a :| (a == n || IsAncestor(deps, n, a)) && OnCycle(deps, a);
        ListedNotOnCycle(deps, n, a);
      }
    } else {
      UnlistedMeetsCycle(deps, [n]);
    }
  }

  lemma ListedNotOnCycle(deps: Deps, n: string, a: string)
    requires n in Ordered(deps) && (a == n || IsAncestor(deps, n, a))
    ensures !OnCycle(deps, a)
  {
    OrderedIsCausal(deps);
    var r := Ordered(deps);
    var i :| 0 <= i < |r| && r[i] == n;
    if a != n { AncestorsComeEarlier(deps, i, a); }
    var j :| 0 <= j < |r| && r[j] == a;
    if OnCycle(deps, a) {
      AncestorsComeEarlier(deps, j, a);
    }
  }
}
