/** The sort and the ancestor search. */
module TopologicalSort {
  import opened Names
  import opened CausalOrder

  /** A `defaultdict` read. */
  function Lookup<V>(m: map<string, V>, key: string, default: V): V {
    if key in m then m[key] else default
  }

  /** Parent occurrences, repeats counted, that are not in `done`. */
  function Pending(parents: seq<string>, done: set<string>): nat {
    if parents == [] then 0
    else (if parents[0] in done then 0 else 1) + Pending(parents[1..], done)
  }

  lemma {:induction false} PendingZero(parents: seq<string>, done: set<string>)
    ensures Pending(parents, done) == 0 <==> forall p :: p in parents ==> p in done
  {
    if parents != [] {
      PendingZero(parents[1..], done);
      assert parents == [parents[0]] + parents[1..];
    }
  }

  /** Popping a node takes off exactly its own occurrences. */
  lemma {:induction false} PendingAfterPop(parents: seq<string>, done: set<string>, node: string)
    requires node !in done
    ensures Pending(parents, done + {node}) == Pending(parents, done) - Count(parents, node)
  {
    if parents != [] {
      PendingAfterPop(parents[1..], done, node);
      assert parents == [parents[0]] + parents[1..];
    }
  }

  lemma PendingNone(parents: seq<string>)
    ensures Pending(parents, {}) == |parents|
  {
  }

  function Count(q: seq<string>, x: string): nat {
    multiset(q)[x]
  }

  lemma CountAppend(q: seq<string>, a: string)
    ensures forall x :: Count(q + [a], x) == Count(q, x) + if x == a then 1 else 0
  {
  }

  /** The entries under `p` that name `c`. */
  function Entries(children: map<string, seq<string>>, p: string, c: string): nat {
    Count(Lookup(children, p, []), c)
  }

  /** `children` maps each parent to the artifacts that name it, one entry an occurrence. */
  ghost predicate ReverseOf(deps: Deps, seen: set<string>, children: map<string, seq<string>>) {
    forall p, c :: Entries(children, p, c) == if c in seen && c in deps then Count(deps[c], p) else 0
  }

  lemma EntryAdded(children: map<string, seq<string>>, parent: string, artifact: string)
    ensures forall p, c :: Entries(children[parent := Lookup(children, parent, []) + [artifact]], p, c) ==
                           Entries(children, p, c) + if p == parent && c == artifact then 1 else 0
  {
    CountAppend(Lookup(children, parent, []), artifact);
  }

  method AddChildEntries(deps: Deps, ghost seen: set<string>, artifact: string, before: map<string, seq<string>>)
    returns (children: map<string, seq<string>>)
    requires artifact in deps && artifact !in seen && ReverseOf(deps, seen, before)
    ensures ReverseOf(deps, seen + {artifact}, children)
  {
    children := before;
    var parents := deps[artifact];
    assert forall p :: Count(parents[..0], p) == 0;
    for k := 0 to |parents|
      invariant forall p, c :: Entries(children, p, c) ==
                               Entries(before, p, c) + if c == artifact then Count(parents[..k], p) else 0
    {
      assert parents[..k+1] == parents[..k] + [parents[k]];
      CountAppend(parents[..k], parents[k]);
      EntryAdded(children, parents[k], artifact);
      children := children[parents[k] := Lookup(children, parents[k], []) + [artifact]];
    }
    assert parents[..|parents|] == parents;
  }

  /** The tables that the sort starts from. */
  method BuildTables(deps: Deps)
    returns (inDegree: map<string, int>, children: map<string, seq<string>>, allNodes: set<string>)
    ensures inDegree.Keys == deps.Keys && forall c :: c in deps ==> inDegree[c] == |deps[c]|
    ensures ReverseOf(deps, deps.Keys, children)
    ensures allNodes == Nodes(deps)
  {
    inDegree, children, allNodes := map[], map[], deps.Keys;
    var todo := deps.Keys;
    while todo != {}
      invariant todo <= deps.Keys
      invariant inDegree.Keys == deps.Keys - todo && forall c :: c in inDegree ==> inDegree[c] == |deps[c]|
      invariant ReverseOf(deps, deps.Keys - todo, children)
      invariant allNodes == deps.Keys + set n, p | n in deps && n !in todo && p in deps[n] :: p
      decreases todo
    {
      var artifact :| artifact in todo;
      inDegree := inDegree[artifact := |deps[artifact]|];
      children := AddChildEntries(deps, deps.Keys - todo, artifact, children);
      allNodes := allNodes + set p | p in deps[artifact];
      assert deps.Keys - todo + {artifact} == deps.Keys - (todo - {artifact});
      todo := todo - {artifact};
    }
  }

  ghost predicate Counted(deps: Deps, inDegree: map<string, int>, popped: seq<string>) {
    inDegree.Keys == deps.Keys && forall c :: c in deps ==> inDegree[c] == Pending(deps[c], Elems(popped))
  }

  /** Every child entry takes one off its counter; a counter that reaches zero queues its artifact. */
  method CountDown(kids: seq<string>, before: map<string, int>)
    returns (inDegree: map<string, int>, freed: seq<string>)
    requires NonDecreasing(kids)
    requires forall c :: c in kids ==> c in before && Count(kids, c) <= before[c]
    ensures inDegree.Keys == before.Keys
    ensures forall c :: c in before ==> inDegree[c] == before[c] - Count(kids, c)
    ensures Lists(freed, set c | c in kids && c in before && before[c] == Count(kids, c))
  {
    inDegree, freed := before, [];
    for k := 0 to |kids|
      invariant CountedDown(kids[..k], before, inDegree) && FreedBy(kids[..k], inDegree, freed)
    {
      var child := kids[k];
      CountOne(kids, k, before, inDegree);
      FreeOne(kids, k, inDegree, freed);
      inDegree := inDegree[child := inDegree[child] - 1];
      if inDegree[child] == 0 {
        freed := freed + [child];
      }
    }
    assert kids[..|kids|] == kids;
  }

  ghost predicate CountedDown(taken: seq<string>, before: map<string, int>, inDegree: map<string, int>) {
    inDegree.Keys == before.Keys && forall c :: c in before ==> inDegree[c] == before[c] - Count(taken, c)
  }

  ghost predicate FreedBy(taken: seq<string>, inDegree: map<string, int>, freed: seq<string>) {
    Lists(freed, set c | c in taken && c in inDegree && inDegree[c] == 0)
  }

  lemma CountOne(kids: seq<string>, k: nat, before: map<string, int>, inDegree: map<string, int>)
    requires k < |kids| && kids[k] in before && Count(kids, kids[k]) <= before[kids[k]]
    requires CountedDown(kids[..k], before, inDegree)
    ensures kids[k] in inDegree && inDegree[kids[k]] > 0
    ensures CountedDown(kids[..k+1], before, inDegree[kids[k] := inDegree[kids[k]] - 1])
  {
    PrefixCount(kids, k);
  }

  lemma FreeOne(kids: seq<string>, k: nat, inDegree: map<string, int>, freed: seq<string>)
    requires NonDecreasing(kids) && k < |kids| && kids[k] in inDegree && inDegree[kids[k]] > 0
    requires FreedBy(kids[..k], inDegree, freed)
    ensures var inDegree' := inDegree[kids[k] := inDegree[kids[k]] - 1];
            FreedBy(kids[..k+1], inDegree', if inDegree'[kids[k]] == 0 then freed + [kids[k]] else freed)
  {
    PrefixCount(kids, k);
    assert kids[k] !in freed;
    if inDegree[kids[k]] == 1 {
      AppendLargest(freed, kids[k], kids, k);
    }
  }

  lemma PrefixCount(kids: seq<string>, k: nat)
    requires k < |kids|
    ensures forall c :: Count(kids[..k+1], c) == Count(kids[..k], c) + if c == kids[k] then 1 else 0
    ensures forall c :: c in kids[..k+1] <==> c in kids[..k] || c == kids[k]
    ensures Count(kids[..k], kids[k]) < Count(kids, kids[k])
  {
    assert kids[..k+1] == kids[..k] + [kids[k]];
    CountAppend(kids[..k], kids[k]);
    assert kids == kids[..k+1] + kids[k+1..];
  }

  /** Appending the next child keeps the list sorted, because the children are taken in order. */
  lemma AppendLargest(freed: seq<string>, child: string, kids: seq<string>, k: nat)
    requires NonDecreasing(kids) && k < |kids| && child == kids[k] && child !in freed
    requires NonDecreasing(freed) && NoDuplicates(freed) && forall c :: c in freed ==> c in kids[..k]
    ensures NonDecreasing(freed + [child]) && NoDuplicates(freed + [child])
  {
    forall i | 0 <= i < |freed| ensures Le(freed[i], child) && freed[i] != child {
      assert freed[i] in freed && freed[i] in kids[..k];
    }
  }

  /** `kids` is the sorted list of the artifacts that name `node`, one entry an occurrence. */
  ghost predicate ChildrenOf(deps: Deps, node: string, kids: seq<string>) {
    NonDecreasing(kids) && forall c :: Count(kids, c) == if c in deps then Count(deps[c], node) else 0
  }

  lemma SortedEntries(deps: Deps, children: map<string, seq<string>>, node: string)
    requires ReverseOf(deps, deps.Keys, children)
    ensures ChildrenOf(deps, node, Sorted(Lookup(children, node, [])))
  {
    forall c ensures Count(Sorted(Lookup(children, node, [])), c) == Entries(children, node, c) {
    }
  }

  lemma ExistingAppend(deps: Deps, q: seq<string>, n: string)
    ensures Existing(deps, q + [n]) == Existing(deps, q) + if n in deps then [n] else []
  {
    assert (q + [n])[..|q|] == q;
  }

  lemma FreedByCounters(deps: Deps, popped: seq<string>, node: string, kids: seq<string>, before: map<string, int>)
    requires node !in popped && Counted(deps, before, popped) && ChildrenOf(deps, node, kids)
    ensures forall c :: c in deps ==> before[c] - Count(kids, c) == Pending(deps[c], Elems(popped + [node]))
    ensures (set c | c in kids && c in before && before[c] == Count(kids, c)) == Freed(deps, Elems(popped), node)
  {
    assert Elems(popped + [node]) == Elems(popped) + {node};
    forall c | c in deps
      ensures before[c] - Count(kids, c) == Pending(deps[c], Elems(popped + [node]))
      ensures c in kids && before[c] == Count(kids, c) <==> c in Freed(deps, Elems(popped), node)
    {
      PendingAfterPop(deps[c], Elems(popped), node);
      PendingZero(deps[c], Elems(popped) + {node});
      assert c in kids <==> c in multiset(kids);
      assert node in deps[c] <==> node in multiset(deps[c]);
    }
  }

  /** One pop: the counters are those of the longer history, and what is queued is what the pop frees. */
  method ReleaseChildren(deps: Deps, ghost popped: seq<string>, ghost node: string, kids: seq<string>,
                         before: map<string, int>)
    returns (inDegree: map<string, int>, freed: seq<string>)
    requires node !in popped && Counted(deps, before, popped) && ChildrenOf(deps, node, kids)
    ensures Counted(deps, inDegree, popped + [node])
    ensures freed == InOrder(Freed(deps, Elems(popped), node))
  {
    FreedByCounters(deps, popped, node, kids, before);
    forall c | c in kids ensures c in before && Count(kids, c) <= before[c] {
      assert c in multiset(kids);
      PendingAfterPop(deps[c], Elems(popped), node);
    }
    inDegree, freed := CountDown(kids, before);
    ListingUnique(freed, InOrder(Freed(deps, Elems(popped), node)), Freed(deps, Elems(popped), node));
  }

  /** The sort returns the order that the graph alone determines, whatever order its dictionaries are read in. */
  method Sort(deps: Deps) returns (result: seq<string>)
    ensures result == Ordered(deps)
  {
    if deps == map[] {
      assert Nodes(deps) == {};
      assert Roots(deps) == {};
      return [];
    }
    var inDegree, children, allNodes := BuildTables(deps);
    var roots := set n | n in allNodes && Lookup(inDegree, n, 0) == 0;
    assert roots == Roots(deps);
    var queue := SortSet(roots);
    result := [];
    ghost var popped: seq<string> := [];
    SortStarts(deps, inDegree);
    while queue != []
      invariant Scheduled(deps, popped, queue)
      invariant Drain(deps, popped, queue) == Drain(deps, [], InOrder(Roots(deps)))
      invariant result == Existing(deps, popped)
      invariant Counted(deps, inDegree, popped)
      invariant |popped + queue| <= |Nodes(deps)|
      decreases |Nodes(deps)| - |popped|
    {
      DrainStep(deps, popped, queue);
      var node := queue[0];
      queue := queue[1..];
      ExistingAppend(deps, popped, node);
      if node in deps {
        result := result + [node];
      }
      SortedEntries(deps, children, node);
      var freed;
      inDegree, freed := ReleaseChildren(deps, popped, node, Sorted(Lookup(children, node, [])), inDegree);
      popped := popped + [node];
      queue := queue + freed;
    }
  }

  lemma SortStarts(deps: Deps, inDegree: map<string, int>)
    requires inDegree.Keys == deps.Keys && forall c :: c in deps ==> inDegree[c] == |deps[c]|
    ensures Counted(deps, inDegree, [])
    ensures Scheduled(deps, [], InOrder(Roots(deps)))
    ensures |[] + InOrder(Roots(deps))| <= |Nodes(deps)|
  {
    forall c | c in deps ensures inDegree[c] == Pending(deps[c], Elems([])) {
      PendingNone(deps[c]);
      assert Elems([]) == {};
    }
    RootsScheduled(deps);
    PoppedBounded(deps, [] + InOrder(Roots(deps)));
  }

  // ----- the ancestor search -----

  ghost function AncestorsOf(deps: Deps, n: string): set<string> {
    set a | a in deps && IsAncestor(deps, n, a)
  }

  lemma {:induction false} ClosedHoldsChain(deps: Deps, n: string, closed: set<string>, path: seq<string>)
    requires n in deps && closed <= deps.Keys
    requires forall m, p :: (m == n || m in closed) && p in Parents(deps, m) && p in deps ==> p in closed
    requires Chain(deps, path) && (path[0] == n || path[0] in closed)
    ensures path[|path|-1] in closed
    decreases |path|
  {
    assert path[0+1] in deps[path[0]];
    assert path[1] in Parents(deps, path[0]);
    if |path| > 2 {
      ChainTail(deps, path);
      ClosedHoldsChain(deps, n, closed, path[1..]);
    }
  }

  /** Breadth-first search over parent links. It terminates on cyclic graphs and returns the transitive closure. */
  method GetAncestors(deps: Deps, name: string) returns (ancestors: set<string>)
    ensures ancestors == if name in deps then AncestorsOf(deps, name) else {}
  {
    ancestors := {};
    if name !in deps {
      return;
    }
    var queue := deps[name];
    forall p | p in queue && p in deps ensures IsAncestor(deps, name, p) {
      ParentIsAncestor(deps, name, p);
    }
    while queue != []
      invariant ancestors <= AncestorsOf(deps, name)
      invariant forall p :: p in queue && p in deps ==> IsAncestor(deps, name, p)
      invariant forall m, p :: (m == name || m in ancestors) && p in Parents(deps, m) && p in deps ==>
                               p in ancestors || p in queue
      decreases deps.Keys - ancestors, |queue|
    {
      var parent := queue[0];
      assert queue == [parent] + queue[1..];
      queue := queue[1..];
      if parent in ancestors {
        continue;
      }
      if parent in deps {
        forall p | p in deps[parent] && p in deps ensures IsAncestor(deps, name, p) {
          ParentIsAncestor(deps, parent, p);
          AncestorTransitive(deps, name, parent, p);
        }
        ancestors := ancestors + {parent};
        queue := queue + deps[parent];
      }
    }
    forall a | a in AncestorsOf(deps, name) ensures a in ancestors {
      var path :| ChainFrom(deps, path, name, a);
      ClosedHoldsChain(deps, name, ancestors, path);
    }
  }
}
