/** Tips: the frontier of the history. */
module Frontier {
  import opened Names
  import opened CausalOrder

  ghost predicate NamedByEligible(deps: Deps, eligible: set<string>, n: string) {
    exists m :: m in eligible && n in Parents(deps, m)
  }

  /** Eligible artifacts that no eligible artifact names as a parent, in causal order. */
  ghost function TipsOf(deps: Deps, eligible: set<string>, ordered: seq<string>): (r: seq<string>)
    ensures forall x :: x in r <==> x in ordered && x in eligible && !NamedByEligible(deps, eligible, x)
    ensures NoDuplicates(ordered) ==> NoDuplicates(r)
  {
    if ordered == [] then [] else
      var front, last := ordered[..|ordered|-1], ordered[|ordered|-1];
      assert ordered == front + [last];
      assert NoDuplicates(ordered) ==> last !in front;
      TipsOf(deps, eligible, front)
      + if last in eligible && !NamedByEligible(deps, eligible, last) then [last] else []
  }

  ghost function Tips(deps: Deps, eligible: set<string>): seq<string> {
    TipsOf(deps, eligible, Ordered(deps))
  }

  lemma TipsSnoc(deps: Deps, eligible: set<string>, front: seq<string>, n: string)
    ensures TipsOf(deps, eligible, front + [n]) == TipsOf(deps, eligible, front)
              + if n in eligible && !NamedByEligible(deps, eligible, n) then [n] else []
  {
    assert (front + [n])[..|front|] == front;
  }

  lemma NamedByOneMore(deps: Deps, some: set<string>, m: string)
    ensures forall n :: NamedByEligible(deps, some + {m}, n) <==>
                        NamedByEligible(deps, some, n) || n in Parents(deps, m)
  {
    assert m in some + {m};
  }

  /** Everything that an eligible artifact names. */
  method CollectReferenced(deps: Deps, eligible: set<string>) returns (referenced: set<string>)
    ensures forall n :: n in referenced <==> NamedByEligible(deps, eligible, n)
  {
    referenced := {};
    var todo := eligible;
    while todo != {}
      invariant todo <= eligible
      invariant forall n :: n in referenced <==> NamedByEligible(deps, eligible - todo, n)
      decreases todo
    {
      var m :| m in todo;
      NamedByOneMore(deps, eligible - todo, m);
      assert eligible - todo + {m} == eligible - (todo - {m});
      referenced := referenced + set p | p in Parents(deps, m);
      todo := todo - {m};
    }
    assert eligible - todo == eligible;
  }

  ghost predicate TipsSoFar(deps: Deps, eligible: set<string>, seen: seq<string>, tips: seq<string>) {
    tips == TipsOf(deps, eligible, seen)
  }

  lemma OneMoreTip(deps: Deps, eligible: set<string>, ordered: seq<string>, k: nat, tips: seq<string>)
    requires k < |ordered| && TipsSoFar(deps, eligible, ordered[..k], tips)
    ensures var n := ordered[k];
            TipsSoFar(deps, eligible, ordered[..k+1],
                      if n in eligible && !NamedByEligible(deps, eligible, n) then tips + [n] else tips)
  {
    assert ordered[..k+1] == ordered[..k] + [ordered[k]];
    TipsSnoc(deps, eligible, ordered[..k], ordered[k]);
  }

  /** The accumulator loops that run after the sort when an index is built. */
  method CollectTips(deps: Deps, eligible: set<string>, ordered: seq<string>) returns (tips: seq<string>)
    ensures tips == TipsOf(deps, eligible, ordered)
  {
    var referenced := CollectReferenced(deps, eligible);
    tips := [];
    for k := 0 to |ordered|
      invariant TipsSoFar(deps, eligible, ordered[..k], tips)
    {
      var name := ordered[k];
      OneMoreTip(deps, eligible, ordered, k, tips);
      if name in eligible && name !in referenced {
        tips := tips + [name];
      }
    }
    assert ordered[..|ordered|] == ordered;
  }

  ghost predicate Acyclic(deps: Deps) {
    forall n :: n in deps ==> !OnCycle(deps, n)
  }

  lemma AcyclicListsAll(deps: Deps)
    requires Acyclic(deps)
    ensures forall n :: n in Ordered(deps) <==> n in deps
  {
    OrderedIsCausal(deps);
    forall n | n in deps ensures n in Ordered(deps) {
      OrderedIsComplete(deps, n);
      forall a | IsAncestor(deps, n, a) ensures a in deps {
        var path :| ChainFrom(deps, path, n, a);
        assert a in path;
      }
    }
  }

  lemma ListsAllIsAcyclic(deps: Deps)
    requires forall n :: n in deps ==> n in Ordered(deps)
    ensures Acyclic(deps)
  {
    forall n | n in deps ensures !OnCycle(deps, n) {
      OrderedIsComplete(deps, n);
    }
  }

  /** A chain of eligible artifacts from a tip down to `n`, each one naming the next as a parent. */
  ghost predicate TipChain(deps: Deps, eligible: set<string>, path: seq<string>, n: string) {
    EligibleWalk(deps, eligible, path) && path[0] in Tips(deps, eligible) && path[|path|-1] == n
  }

  ghost predicate EligibleWalk(deps: Deps, eligible: set<string>, path: seq<string>) {
    Walk(deps, path) && forall x :: x in path ==> x in eligible
  }

  lemma WalkPrepend(deps: Deps, eligible: set<string>, m: string, path: seq<string>)
    requires EligibleWalk(deps, eligible, path) && m in eligible && m in deps && path[0] in deps[m]
    ensures EligibleWalk(deps, eligible, [m] + path)
  {
    var longer := [m] + path;
    forall i | 0 <= i < |longer| - 1 ensures longer[i+1] in deps[longer[i]] {
      if i > 0 { assert longer[i] == path[i-1] && longer[i+1] == path[(i-1)+1]; }
    }
  }

  lemma NamedLater(deps: Deps, i: nat, m: string) returns (j: nat)
    requires Acyclic(deps) && i < |Ordered(deps)| && m in deps && Ordered(deps)[i] in deps[m]
    ensures i < j < |Ordered(deps)| && Ordered(deps)[j] == m
  {
    AcyclicListsAll(deps);
    OrderedIsCausal(deps);
    j :| 0 <= j < |Ordered(deps)| && Ordered(deps)[j] == m;
    var k := ParentListedEarlier(deps, j, Ordered(deps)[i]);
  }

  lemma WhoNames(deps: Deps, eligible: set<string>, n: string) returns (m: string)
    requires eligible <= deps.Keys && n in Ordered(deps) && n in eligible && n !in Tips(deps, eligible)
    ensures m in eligible && m in deps && n in deps[m]
  {
    m :| m in eligible && n in Parents(deps, m);
  }

  /** In an acyclic history every eligible artifact hangs from some tip. */
  lemma {:induction false} HangsFromTip(deps: Deps, eligible: set<string>, i: nat, walk: seq<string>)
    returns (path: seq<string>)
    requires Acyclic(deps) && eligible <= deps.Keys && i < |Ordered(deps)|
    requires EligibleWalk(deps, eligible, walk) && walk[0] == Ordered(deps)[i]
    ensures TipChain(deps, eligible, path, walk[|walk|-1])
    decreases |Ordered(deps)| - i
  {
    if walk[0] in Tips(deps, eligible) {
      return walk;
    }
    var m, j := StepUp(deps, eligible, i, walk);
    path := HangsFromTip(deps, eligible, j, [m] + walk);
  }

  lemma StepUp(deps: Deps, eligible: set<string>, i: nat, walk: seq<string>) returns (m: string, j: nat)
    requires Acyclic(deps) && eligible <= deps.Keys && i < |Ordered(deps)|
    requires EligibleWalk(deps, eligible, walk) && walk[0] == Ordered(deps)[i] && walk[0] !in Tips(deps, eligible)
    ensures EligibleWalk(deps, eligible, [m] + walk) && i < j < |Ordered(deps)| && Ordered(deps)[j] == m
  {
    m := WhoNames(deps, eligible, walk[0]);
    j := NamedLater(deps, i, m);
    WalkPrepend(deps, eligible, m, walk);
  }

  lemma {:induction false} EveryEligibleHangsFromTip(deps: Deps, eligible: set<string>, n: string)
    requires Acyclic(deps) && eligible <= deps.Keys && n in eligible
    ensures exists path :: TipChain(deps, eligible, path, n)
  {
    AcyclicListsAll(deps);
    var i :| 0 <= i < |Ordered(deps)| && Ordered(deps)[i] == n;
    var path := HangsFromTip(deps, eligible, i, [n]);
  }

  // ----- changes of status -----

  /** Every artifact that is eligible in `from` and not in `to` is off the frontier of `from`, and its parents that are
      eligible in both are off the frontier of `to`. */
  ghost predicate LeavesQuietly(deps: Deps, from: set<string>, to: set<string>) {
    && (forall x :: x in from - to && x in Ordered(deps) ==> NamedByEligible(deps, from, x))
    && (forall x, p :: x in from - to && p in Parents(deps, x) && p in from * to && p in Ordered(deps) ==>
          NamedByEligible(deps, to, p))
  }

  /** A condition on the artifacts whose eligibility changes, and on their parents alone. */
  ghost predicate Harmless(deps: Deps, before: set<string>, after: set<string>) {
    LeavesQuietly(deps, before, after) && LeavesQuietly(deps, after, before)
  }

  ghost predicate TipsWithin(deps: Deps, from: set<string>, to: set<string>) {
    forall x :: x in Tips(deps, from) ==> x in Tips(deps, to)
  }

  lemma QuietTipsStay(deps: Deps, from: set<string>, to: set<string>)
    requires Harmless(deps, from, to)
    ensures TipsWithin(deps, from, to)
  {
    forall x | x in Tips(deps, from) ensures x in Tips(deps, to) {
      assert x in to;
      NamedBefore(deps, from, to, x);
    }
  }

  lemma NamedBefore(deps: Deps, from: set<string>, to: set<string>, x: string)
    requires LeavesQuietly(deps, to, from) && x in from * to && x in Ordered(deps)
    ensures NamedByEligible(deps, to, x) ==> NamedByEligible(deps, from, x)
  {
    if NamedByEligible(deps, to, x) {
      var m :| m in to && x in Parents(deps, m);
      if m !in from { assert m in to - from; }
    }
  }

  lemma SameTipsLeaveQuietly(deps: Deps, from: set<string>, to: set<string>)
    requires TipsWithin(deps, from, to) && TipsWithin(deps, to, from)
    ensures LeavesQuietly(deps, from, to)
  {
    forall x | x in from - to && x in Ordered(deps) ensures NamedByEligible(deps, from, x) {
      assert x !in Tips(deps, to);
    }
    forall x, p | x in from - to && p in Parents(deps, x) && p in from * to && p in Ordered(deps)
      ensures NamedByEligible(deps, to, p)
    {
      assert NamedByEligible(deps, from, p);
      assert p !in Tips(deps, from);
    }
  }

  lemma {:induction false} AlikeOn(deps: Deps, a: set<string>, b: set<string>, ordered: seq<string>)
    requires forall x :: x in ordered ==>
               ((x in a && !NamedByEligible(deps, a, x)) <==> (x in b && !NamedByEligible(deps, b, x)))
    ensures TipsOf(deps, a, ordered) == TipsOf(deps, b, ordered)
  {
    if ordered != [] {
      assert ordered[|ordered|-1] in ordered;
      AlikeOn(deps, a, b, ordered[..|ordered|-1]);
    }
  }

  /** Any change of statuses, with no artifact added or removed, leaves the frontier as it was exactly when it is
      harmless: for every history, cyclic ones included. */
  lemma {:induction false} StatusChangeKeepsTipsIff(deps: Deps, before: set<string>, after: set<string>)
    ensures Tips(deps, before) == Tips(deps, after) <==> Harmless(deps, before, after)
  {
    if Harmless(deps, before, after) {
      QuietTipsStay(deps, before, after);
      QuietTipsStay(deps, after, before);
      forall x | x in Ordered(deps)
        ensures (x in before && !NamedByEligible(deps, before, x)) <==> (x in after && !NamedByEligible(deps, after, x))
      {
        assert x in Tips(deps, before) <==> x in Tips(deps, after);
      }
      AlikeOn(deps, before, after, Ordered(deps));
    } else if Tips(deps, before) == Tips(deps, after) {
      SameTipsLeaveQuietly(deps, before, after);
      SameTipsLeaveQuietly(deps, after, before);
    }
  }

  /** One artifact that is no longer eligible: it must have been named, and its parents must still be. */
  lemma {:induction false} RetiringKeepsTipsIff(deps: Deps, eligible: set<string>, x: string)
    requires Acyclic(deps) && eligible <= deps.Keys && x in eligible
    ensures Tips(deps, eligible - {x}) == Tips(deps, eligible)
      <==> NamedByEligible(deps, eligible, x)
           && forall p :: p in deps[x] && p in eligible ==> NamedByEligible(deps, eligible - {x}, p)
  {
    AcyclicListsAll(deps);
    NotItsOwnParent(deps, x);
    StatusChangeKeepsTipsIff(deps, eligible, eligible - {x});
    assert eligible - (eligible - {x}) == {x} && (eligible - {x}) - eligible == {};
    assert eligible * (eligible - {x}) == eligible - {x};
  }

  /** One artifact that becomes eligible: it must be named, and so must its parents have been. */
  lemma {:induction false} StartingKeepsTipsIff(deps: Deps, eligible: set<string>, x: string)
    requires Acyclic(deps) && eligible <= deps.Keys && x in deps && x !in eligible
    ensures Tips(deps, eligible + {x}) == Tips(deps, eligible)
      <==> NamedByEligible(deps, eligible, x)
           && forall p :: p in deps[x] && p in eligible ==> NamedByEligible(deps, eligible, p)
  {
    var more := eligible + {x};
    assert more - {x} == eligible;
    RetiringKeepsTipsIff(deps, more, x);
    NotItsOwnParent(deps, x);
    NamedByOneMore(deps, eligible, x);
  }

  lemma NotItsOwnParent(deps: Deps, x: string)
    requires Acyclic(deps) && x in deps
    ensures x !in deps[x]
  {
    if x in deps[x] { ParentIsAncestor(deps, x, x); }
  }

  // ----- creation -----

  /** A new artifact with these parents; repeats and missing names are allowed. */
  function Adopted(deps: Deps, n: string, parents: seq<string>): Deps {
    deps[n := parents]
  }

  /** The frontier becomes the parent list of the new artifact. */
  ghost function Created(deps: Deps, eligible: set<string>, n: string): Deps {
    Adopted(deps, n, Tips(deps, eligible))
  }

  ghost predicate Reaches(deps: Deps, x: string, a: string) {
    x == a || IsAncestor(deps, x, a)
  }

  lemma ReachesTransitive(deps: Deps, x: string, y: string, z: string)
    requires Reaches(deps, x, y) && Reaches(deps, y, z)
    ensures Reaches(deps, x, z)
  {
    if x != y && y != z { AncestorTransitive(deps, x, y, z); }
  }

  lemma ReachesMonotone(deps: Deps, deps': Deps, x: string, a: string)
    requires Reaches(deps, x, a)
    requires forall k :: k in deps ==> k in deps' && deps'[k] == deps[k]
    ensures Reaches(deps', x, a)
  {
    if x != a { AncestorMonotone(deps, deps', x, a); }
  }

  /** `x` is eligible or an ancestor of an eligible artifact. */
  ghost predicate Supports(deps: Deps, eligible: set<string>, x: string) {
    exists e :: e in eligible && Reaches(deps, e, x)
  }

  /** No artifact that already names `n` is eligible or an ancestor of an eligible artifact. */
  ghost predicate Detached(deps: Deps, eligible: set<string>, n: string) {
    forall m :: m in deps && n in deps[m] ==> !Supports(deps, eligible, m)
  }

  /** Some parent is the new artifact itself, or leads back to an artifact that already names it. */
  ghost predicate ClosesCycle(deps: Deps, n: string, parents: seq<string>) {
    exists p :: p in parents && LeadsBack(deps, n, p)
  }

  ghost predicate LeadsBack(deps: Deps, n: string, p: string) {
    p == n || (p in deps && exists m :: m in deps && n in deps[m] && Reaches(deps, p, m))
  }

  lemma {:induction false} SupportersStayListed(deps: Deps, eligible: set<string>, n: string, parents: seq<string>,
                                                i: nat)
    requires Acyclic(deps) && eligible <= deps.Keys && n !in deps && Detached(deps, eligible, n)
    requires i < |Ordered(deps)| && Supports(deps, eligible, Ordered(deps)[i])
    ensures Ordered(deps)[i] in Ordered(Adopted(deps, n, parents))
    decreases i
  {
    var r, deps' := Ordered(deps), Adopted(deps, n, parents);
    OrderedIsCausal(deps);
    var x := r[i];
    forall p | p in deps'[x] && p in deps' ensures p in Ordered(deps') {
      assert p != n;
      var j := ParentListedEarlier(deps, i, p);
      ParentSupports(deps, eligible, x, p);
      SupportersStayListed(deps, eligible, n, parents, j);
    }
    OrderedIsFixpoint(deps', x);
  }

  lemma ParentSupports(deps: Deps, eligible: set<string>, x: string, p: string)
    requires Supports(deps, eligible, x) && x in deps && p in deps && p in deps[x]
    ensures Supports(deps, eligible, p)
  {
    ParentIsAncestor(deps, x, p);
    var e :| e in eligible && Reaches(deps, e, x);
    ReachesTransitive(deps, e, x, p);
  }

  lemma EligibleStayListed(deps: Deps, eligible: set<string>, n: string, parents: seq<string>)
    requires Acyclic(deps) && eligible <= deps.Keys && n !in deps && Detached(deps, eligible, n)
    ensures forall x :: x in eligible ==> x in Ordered(Adopted(deps, n, parents))
  {
    AcyclicListsAll(deps);
    forall x | x in eligible ensures x in Ordered(Adopted(deps, n, parents)) {
      var i :| 0 <= i < |Ordered(deps)| && Ordered(deps)[i] == x;
      assert Reaches(deps, x, x);
      SupportersStayListed(deps, eligible, n, parents, i);
    }
  }

  /** An artifact from which no namer of `n` is reached keeps its place among the listed ones. */
  lemma {:induction false} BystandersStayListed(deps: Deps, n: string, parents: seq<string>, i: nat)
    requires Acyclic(deps) && n !in deps && i < |Ordered(deps)| && !LeadsBack(deps, n, Ordered(deps)[i])
    ensures Ordered(deps)[i] in Ordered(Adopted(deps, n, parents))
    decreases i
  {
    var r, deps' := Ordered(deps), Adopted(deps, n, parents);
    OrderedIsCausal(deps);
    var x := r[i];
    assert Reaches(deps, x, x);
    forall p | p in deps'[x] && p in deps' ensures p in Ordered(deps') {
      assert p != n;
      var j := ParentListedEarlier(deps, i, p);
      ParentLeadsNowhere(deps, n, x, p);
      BystandersStayListed(deps, n, parents, j);
    }
    OrderedIsFixpoint(deps', x);
  }

  lemma ParentLeadsNowhere(deps: Deps, n: string, x: string, p: string)
    requires n !in deps && x in deps && p in deps && p in deps[x] && !LeadsBack(deps, n, x)
    ensures !LeadsBack(deps, n, p)
  {
    ParentIsAncestor(deps, x, p);
    forall m | m in deps && n in deps[m] && Reaches(deps, p, m) ensures false {
      ReachesTransitive(deps, x, p, m);
    }
  }

  lemma NewIsListed(deps: Deps, n: string, parents: seq<string>)
    requires Acyclic(deps) && n !in deps && !ClosesCycle(deps, n, parents)
    ensures n in Ordered(Adopted(deps, n, parents))
  {
    AcyclicListsAll(deps);
    var deps' := Adopted(deps, n, parents);
    forall p | p in parents && p in deps' ensures p in Ordered(deps') {
      assert !LeadsBack(deps, n, p);
      var i :| 0 <= i < |Ordered(deps)| && Ordered(deps)[i] == p;
      BystandersStayListed(deps, n, parents, i);
    }
    OrderedIsFixpoint(deps', n);
  }

  lemma {:induction false} OldIsListed(deps: Deps, n: string, parents: seq<string>, i: nat)
    requires Acyclic(deps) && n !in deps && i < |Ordered(deps)| && n in Ordered(Adopted(deps, n, parents))
    ensures Ordered(deps)[i] in Ordered(Adopted(deps, n, parents))
    decreases i
  {
    var r, deps' := Ordered(deps), Adopted(deps, n, parents);
    OrderedIsCausal(deps);
    forall p | p in deps'[r[i]] && p in deps' ensures p in Ordered(deps') {
      if p != n {
        var j := ParentListedEarlier(deps, i, p);
        OldIsListed(deps, n, parents, j);
      }
    }
    OrderedIsFixpoint(deps', r[i]);
  }

  /** Without a way back the creation keeps the history acyclic, and with one the new artifact is on a cycle. */
  lemma {:induction false} CreationKeepsAcyclicIff(deps: Deps, n: string, parents: seq<string>)
    requires Acyclic(deps) && n !in deps
    ensures Acyclic(Adopted(deps, n, parents)) <==> !ClosesCycle(deps, n, parents)
    ensures ClosesCycle(deps, n, parents) ==> OnCycle(Adopted(deps, n, parents), n)
  {
    var deps' := Adopted(deps, n, parents);
    if ClosesCycle(deps, n, parents) {
      var p :| p in parents && LeadsBack(deps, n, p);
      WayBackIsCycle(deps, n, parents, p);
    } else {
      NewIsListed(deps, n, parents);
      AcyclicListsAll(deps);
      forall x | x in deps ensures x in Ordered(deps') {
        var i :| 0 <= i < |Ordered(deps)| && Ordered(deps)[i] == x;
        OldIsListed(deps, n, parents, i);
      }
      ListsAllIsAcyclic(deps');
    }
  }

  lemma WayBackIsCycle(deps: Deps, n: string, parents: seq<string>, p: string)
    requires n !in deps && p in parents && LeadsBack(deps, n, p)
    ensures OnCycle(Adopted(deps, n, parents), n)
  {
    var deps' := Adopted(deps, n, parents);
    ParentIsAncestor(deps', n, p);
    if p != n {
      var m :| m in deps && n in deps[m] && Reaches(deps, p, m);
      ReachesMonotone(deps, deps', p, m);
      ParentIsAncestor(deps', m, n);
      if p != m { AncestorTransitive(deps', p, m, n); }
      AncestorTransitive(deps', n, p, n);
    }
  }

  lemma EligibleNamesSupport(deps: Deps, eligible: set<string>, n: string)
    requires Detached(deps, eligible, n) && eligible <= deps.Keys
    ensures !NamedByEligible(deps, eligible, n)
  {
    forall m | m in eligible ensures Supports(deps, eligible, m) {
      assert Reaches(deps, m, m);
    }
  }

  lemma OnlyMember(q: seq<string>, n: string)
    requires NoDuplicates(q) && forall x :: x in q <==> x == n
    ensures q == [n]
  {
    DistinctLength(q);
    assert Elems(q) == {n};
    assert q[0] in q;
  }

  lemma AncestorMonotone(deps: Deps, deps': Deps, x: string, a: string)
    requires IsAncestor(deps, x, a)
    requires forall k :: k in deps ==> k in deps' && deps'[k] == deps[k]
    ensures IsAncestor(deps', x, a)
  {
    var path :| ChainFrom(deps, path, x, a);
    assert ChainFrom(deps', path, x, a);
  }

  lemma TipAbove(deps: Deps, eligible: set<string>, e: string) returns (t: string)
    requires Acyclic(deps) && eligible <= deps.Keys && e in eligible
    ensures t in Tips(deps, eligible) && t in deps && Reaches(deps, t, e)
  {
    EveryEligibleHangsFromTip(deps, eligible, e);
    var path :| TipChain(deps, eligible, path, e);
    t := path[0];
    WalkReaches(deps, path);
  }

  lemma WalkReaches(deps: Deps, path: seq<string>)
    requires Walk(deps, path)
    ensures path[0] in deps && Reaches(deps, path[0], path[|path|-1])
  {
    if path[0] != path[|path|-1] {
      assert ChainFrom(deps, path, path[0], path[|path|-1]);
    }
  }

  /** If some artifact that names `n` supports the frontier, a tip leads to `n`; if `n` comes to be on a cycle, that
      tip is lost. */
  lemma TipLeadsBack(deps: Deps, eligible: set<string>, n: string) returns (t: string)
    requires Acyclic(deps) && eligible <= deps.Keys && n !in deps && !Detached(deps, eligible, n)
    ensures t in Tips(deps, eligible) && LeadsBack(deps, n, t)
    ensures forall parents :: ClosesCycle(deps, n, parents) ==> t !in Ordered(Adopted(deps, n, parents))
  {
    var m :| m in deps && n in deps[m] && Supports(deps, eligible, m);
    var e :| e in eligible && Reaches(deps, e, m);
    t := TipAbove(deps, eligible, e);
    ReachesTransitive(deps, t, e, m);
    forall parents | ClosesCycle(deps, n, parents) ensures t !in Ordered(Adopted(deps, n, parents)) {
      LostBelowCycle(deps, n, parents, m, t);
    }
  }

  lemma LostBelowCycle(deps: Deps, n: string, parents: seq<string>, m: string, t: string)
    requires Acyclic(deps) && n !in deps && m in deps && n in deps[m] && t in deps && Reaches(deps, t, m)
    requires ClosesCycle(deps, n, parents)
    ensures t !in Ordered(Adopted(deps, n, parents))
  {
    var deps' := Adopted(deps, n, parents);
    CreationKeepsAcyclicIff(deps, n, parents);
    ReachesMonotone(deps, deps', t, m);
    ParentIsAncestor(deps', m, n);
    if t != m { AncestorTransitive(deps', t, m, n); }
    OrderedIsComplete(deps', t);
  }

  lemma AdoptedReferences(deps: Deps, eligible: set<string>, n: string, parents: seq<string>, x: string)
    requires eligible <= deps.Keys && n !in deps
    ensures var deps' := Adopted(deps, n, parents);
      && (NamedByEligible(deps', eligible, x) <==> NamedByEligible(deps, eligible, x))
      && (NamedByEligible(deps', eligible + {n}, x) <==> NamedByEligible(deps, eligible, x) || x in parents)
  {
    var deps' := Adopted(deps, n, parents);
    assert forall m :: m in eligible ==> Parents(deps', m) == Parents(deps, m);
    if x in parents {
      assert n in eligible + {n} && x in Parents(deps', n);
    }
    if NamedByEligible(deps, eligible, x) {
      var m :| m in eligible && x in Parents(deps, m);
      assert x in Parents(deps', m) && m in eligible + {n};
    }
  }

  /** Creating an eligible artifact, whatever its parents, makes it the only tip exactly when every tip is among the
      parents and the creation closes no cycle. */
  lemma {:induction false} AdoptionIsOnlyTipIff(deps: Deps, eligible: set<string>, n: string, parents: seq<string>)
    requires Acyclic(deps) && eligible <= deps.Keys && n !in deps
    ensures Tips(Adopted(deps, n, parents), eligible + {n}) == [n]
      <==> (forall x :: x in Tips(deps, eligible) ==> x in parents) && !ClosesCycle(deps, n, parents)
  {
    var deps' := Adopted(deps, n, parents);
    if ClosesCycle(deps, n, parents) {
      CreationKeepsAcyclicIff(deps, n, parents);
      OrderedIsComplete(deps', n);
      assert n !in Tips(deps', eligible + {n}) && n in [n];
    } else {
      TipsAfterAdoption(deps, eligible, n, parents);
      if forall x :: x in Tips(deps, eligible) ==> x in parents {
        NotNamedWithoutCycle(deps, eligible, n, parents);
        OnlyMember(Tips(deps', eligible + {n}), n);
      } else {
        var x :| x in Tips(deps, eligible) && x !in parents;
        assert x in Tips(deps', eligible + {n}) && x !in [n];
      }
    }
  }

  /** The tips after a creation that closes no cycle. */
  lemma TipsAfterAdoption(deps: Deps, eligible: set<string>, n: string, parents: seq<string>)
    requires Acyclic(deps) && eligible <= deps.Keys && n !in deps && !ClosesCycle(deps, n, parents)
    ensures var tips' := Tips(Adopted(deps, n, parents), eligible + {n});
            && NoDuplicates(tips')
            && forall x :: x in tips' <==> if x == n then !NamedByEligible(deps, eligible, n)
                                           else x in Tips(deps, eligible) && x !in parents
  {
    var deps' := Adopted(deps, n, parents);
    CreationKeepsAcyclicIff(deps, n, parents);
    AcyclicListsAll(deps');
    AcyclicListsAll(deps);
    OrderedIsCausal(deps');
    assert n !in parents by { assert LeadsBack(deps, n, n); }
    forall x ensures x in Tips(deps', eligible + {n}) <==>
                       if x == n then !NamedByEligible(deps, eligible, n)
                       else x in Tips(deps, eligible) && x !in parents
    {
      AdoptedReferences(deps, eligible, n, parents, x);
    }
  }

  lemma NotNamedWithoutCycle(deps: Deps, eligible: set<string>, n: string, parents: seq<string>)
    requires Acyclic(deps) && eligible <= deps.Keys && n !in deps && !ClosesCycle(deps, n, parents)
    requires forall x :: x in Tips(deps, eligible) ==> x in parents
    ensures !NamedByEligible(deps, eligible, n)
  {
    if !Detached(deps, eligible, n) {
      var t := TipLeadsBack(deps, eligible, n);
    }
    EligibleNamesSupport(deps, eligible, n);
  }

  /** Creating an artifact that is not eligible, whatever its parents, keeps the same tips exactly when it closes no
      cycle, or no artifact that names it supports the frontier. */
  lemma {:induction false} FutureAdoptionKeepsTipsIff(deps: Deps, eligible: set<string>, n: string,
                                                      parents: seq<string>)
    requires Acyclic(deps) && eligible <= deps.Keys && n !in deps
    ensures (forall x :: x in Tips(Adopted(deps, n, parents), eligible) <==> x in Tips(deps, eligible))
      <==> !ClosesCycle(deps, n, parents) || Detached(deps, eligible, n)
  {
    var deps' := Adopted(deps, n, parents);
    CreationKeepsAcyclicIff(deps, n, parents);
    AcyclicListsAll(deps);
    if ClosesCycle(deps, n, parents) && !Detached(deps, eligible, n) {
      var t := TipLeadsBack(deps, eligible, n);
      assert t !in Tips(deps', eligible);
    } else {
      if ClosesCycle(deps, n, parents) {
        EligibleStayListed(deps, eligible, n, parents);
      } else {
        AcyclicListsAll(deps');
      }
      forall x ensures x in Tips(deps', eligible) <==> x in Tips(deps, eligible) {
        AdoptedReferences(deps, eligible, n, parents, x);
      }
    }
  }

  /** Both kinds of creation, where they close no cycle. */
  lemma FrontierMoves(deps: Deps, eligible: set<string>, n: string, parents: seq<string>, counts: bool)
    requires Acyclic(deps) && eligible <= deps.Keys && n !in deps && !ClosesCycle(deps, n, parents)
    ensures var tips' := Tips(Adopted(deps, n, parents), if counts then eligible + {n} else eligible);
            if counts then tips' == [n] <==> forall x :: x in Tips(deps, eligible) ==> x in parents
            else forall x :: x in tips' <==> x in Tips(deps, eligible)
  {
    if counts {
      AdoptionIsOnlyTipIff(deps, eligible, n, parents);
    } else {
      FutureAdoptionKeepsTipsIff(deps, eligible, n, parents);
    }
  }

  /** With the frontier as its parents, an artifact closes a cycle exactly when something that names it supports the
      frontier. */
  lemma FrontierClosesCycleIff(deps: Deps, eligible: set<string>, n: string)
    requires Acyclic(deps) && eligible <= deps.Keys && n !in deps
    ensures ClosesCycle(deps, n, Tips(deps, eligible)) <==> !Detached(deps, eligible, n)
  {
    if !Detached(deps, eligible, n) {
      var t := TipLeadsBack(deps, eligible, n);
    }
    if ClosesCycle(deps, n, Tips(deps, eligible)) {
      var p :| p in Tips(deps, eligible) && LeadsBack(deps, n, p);
      var m :| m in deps && n in deps[m] && Reaches(deps, p, m);
      assert Supports(deps, eligible, m);
    }
  }

  /** Creating an eligible artifact on the frontier makes it the only tip, exactly when nothing that supports the
      frontier already names it. */
  lemma {:induction false} EligibleCreationIsOnlyTip(deps: Deps, eligible: set<string>, n: string)
    requires Acyclic(deps) && eligible <= deps.Keys && n !in deps
    ensures Tips(Created(deps, eligible, n), eligible + {n}) == [n] <==> Detached(deps, eligible, n)
  {
    AdoptionIsOnlyTipIff(deps, eligible, n, Tips(deps, eligible));
    FrontierClosesCycleIff(deps, eligible, n);
  }

  /** Creating an artifact that is not eligible keeps the same tips, under the same condition. */
  lemma {:induction false} FutureCreationKeepsTips(deps: Deps, eligible: set<string>, n: string)
    requires Acyclic(deps) && eligible <= deps.Keys && n !in deps
    ensures (forall x :: x in Tips(Created(deps, eligible, n), eligible) <==> x in Tips(deps, eligible))
      <==> Detached(deps, eligible, n)
  {
    FutureAdoptionKeepsTipsIff(deps, eligible, n, Tips(deps, eligible));
    FrontierClosesCycleIff(deps, eligible, n);
  }

  /** The failing family: a former tip and the new artifact leave the order. */
  lemma AttachedClosesCycle(deps: Deps, eligible: set<string>, n: string) returns (t: string)
    requires Acyclic(deps) && eligible <= deps.Keys && n !in deps && !Detached(deps, eligible, n)
    ensures t in Tips(deps, eligible)
    ensures t !in Ordered(Created(deps, eligible, n)) && n !in Ordered(Created(deps, eligible, n))
  {
    t := TipLeadsBack(deps, eligible, n);
    FrontierClosesCycleIff(deps, eligible, n);
    CreationKeepsAcyclicIff(deps, n, Tips(deps, eligible));
    OrderedIsComplete(Created(deps, eligible, n), n);
  }

  // ----- creation never reorders what was there -----

  ghost function Without(q: seq<string>, n: string): (r: seq<string>)
    ensures forall x :: x in r <==> x in q && x != n
    ensures n !in q ==> r == q
  {
    if q == [] then [] else
      assert q == [q[0]] + q[1..];
      (if q[0] == n then [] else [q[0]]) + Without(q[1..], n)
  }

  lemma {:induction false} WithoutConcat(a: seq<string>, b: seq<string>, n: string)
    ensures Without(a + b, n) == Without(a, n) + Without(b, n)
  {
    if a == [] {
      assert a + b == b;
    } else {
      assert (a + b)[1..] == a[1..] + b;
      WithoutConcat(a[1..], b, n);
    }
  }

  lemma {:induction false} WithoutLists(q: seq<string>, s: set<string>, n: string)
    requires Lists(q, s)
    ensures Lists(Without(q, n), s - {n})
  {
    if q != [] {
      assert q == [q[0]] + q[1..];
      ListsTail(q, s);
      WithoutLists(q[1..], s - {q[0]}, n);
      if q[0] != n {
        assert s - {n} == (s - {q[0]} - {n}) + {q[0]};
        forall y | y in s - {q[0]} - {n} ensures Le(q[0], y) {
          assert y in q[1..];
        }
        ListsCons(q[0], Without(q[1..], n), s - {q[0]} - {n});
      } else {
        assert s - {q[0]} - {n} == s - {n};
      }
    }
  }

  lemma ListsCons(x: string, q: seq<string>, s: set<string>)
    requires Lists(q, s) && x !in s && forall y :: y in s ==> Le(x, y)
    ensures Lists([x] + q, s + {x})
  {
    assert forall i :: 0 <= i < |q| ==> q[i] in s;
  }

  lemma WithoutInOrder(s: set<string>, t: set<string>, n: string)
    requires t == s - {n}
    ensures Without(InOrder(s), n) == InOrder(t)
  {
    WithoutLists(InOrder(s), s, n);
    ListingUnique(Without(InOrder(s), n), InOrder(t), t);
  }

  /** `n` is new, nothing names it, and its parents are existing artifacts. */
  ghost predicate Appended(deps: Deps, deps': Deps, n: string) {
    && n !in deps && deps'.Keys == deps.Keys + {n} && (forall k :: k in deps ==> deps'[k] == deps[k])
    && (forall k :: k in deps ==> n !in deps[k])
    && (forall p :: p in deps'[n] ==> p in deps)
  }

  lemma WithoutOne(node: string, n: string)
    ensures Without([node], n) == if node == n then [] else [node]
  {
  }

  lemma PopsNew(deps: Deps, deps': Deps, n: string, popped': seq<string>, rest': seq<string>)
    requires Appended(deps, deps', n)
    ensures Without(popped' + [n], n) == Without(popped', n)
    ensures Without(rest' + InOrder(Freed(deps', Elems(popped'), n)), n) == Without([n] + rest', n)
  {
    WithoutConcat(popped', [n], n);
    WithoutConcat(rest', InOrder(Freed(deps', Elems(popped'), n)), n);
    WithoutConcat([n], rest', n);
    WithoutOne(n, n);
    FreedInStep(deps, deps', n, popped', n);
  }

  lemma PopsOld(deps: Deps, deps': Deps, n: string, popped': seq<string>, node: string, rest': seq<string>)
    requires Appended(deps, deps', n) && node != n
    ensures Without(popped' + [node], n) == Without(popped', n) + [node]
    ensures Without([node] + rest', n) == [node] + Without(rest', n)
    ensures Without(rest' + InOrder(Freed(deps', Elems(popped'), node)), n) ==
            Without(rest', n) + InOrder(Freed(deps, Elems(Without(popped', n)), node))
  {
    WithoutConcat(popped', [node], n);
    WithoutConcat(rest', InOrder(Freed(deps', Elems(popped'), node)), n);
    WithoutConcat([node], rest', n);
    WithoutOne(node, n);
    FreedInStep(deps, deps', n, popped', node);
  }

  /** One pop of the longer sort is one pop of the shorter one, or none when the new artifact is popped. */
  lemma StepsTogether(deps: Deps, deps': Deps, n: string, popped': seq<string>, queue': seq<string>)
    requires Appended(deps, deps', n) && queue' != []
    requires Scheduled(deps, Without(popped', n), Without(queue', n))
    ensures var node, freed' := queue'[0], InOrder(Freed(deps', Elems(popped'), queue'[0]));
            var p, q := Without(popped' + [node], n), Without(queue'[1..] + freed', n);
            Scheduled(deps, p, q)
            && Drain(deps, p, q) == Drain(deps, Without(popped', n), Without(queue', n))
  {
    var node := queue'[0];
    assert queue' == [node] + queue'[1..];
    if node == n {
      PopsNew(deps, deps', n, popped', queue'[1..]);
    } else {
      PopsOld(deps, deps', n, popped', node, queue'[1..]);
      var queue := Without(queue', n);
      assert queue[0] == node && queue[1..] == Without(queue'[1..], n);
      DrainStep(deps, Without(popped', n), queue);
    }
  }

  /** The two sorts run in step; the longer one has the new artifact somewhere in addition. */
  lemma {:induction false} DrainInStep(deps: Deps, deps': Deps, n: string,
                                       popped': seq<string>, queue': seq<string>)
    requires Appended(deps, deps', n) && Scheduled(deps', popped', queue')
    requires Scheduled(deps, Without(popped', n), Without(queue', n))
    requires |popped' + queue'| <= |Nodes(deps')|
    ensures Without(Drain(deps', popped', queue'), n) == Drain(deps, Without(popped', n), Without(queue', n))
    decreases |Nodes(deps')| - |popped'|
  {
    if queue' != [] {
      DrainStep(deps', popped', queue');
      StepsTogether(deps, deps', n, popped', queue');
      var freed' := InOrder(Freed(deps', Elems(popped'), queue'[0]));
      DrainInStep(deps, deps', n, popped' + [queue'[0]], queue'[1..] + freed');
    }
  }

  lemma FreedInStep(deps: Deps, deps': Deps, n: string, popped': seq<string>, node: string)
    requires Appended(deps, deps', n)
    ensures Without(InOrder(Freed(deps', Elems(popped'), node)), n) ==
            if node == n then [] else InOrder(Freed(deps, Elems(Without(popped', n)), node))
  {
    var freed' := Freed(deps', Elems(popped'), node);
    if node == n {
      assert freed' == {};
      WithoutInOrder(freed', {}, n);
    } else {
      forall c ensures c in freed' - {n} <==> c in Freed(deps, Elems(Without(popped', n)), node) {
      }
      WithoutInOrder(freed', Freed(deps, Elems(Without(popped', n)), node), n);
    }
  }

  lemma {:induction false} WithoutExisting(deps: Deps, deps': Deps, n: string, q: seq<string>)
    requires Appended(deps, deps', n)
    ensures Without(Existing(deps', q), n) == Existing(deps, Without(q, n))
  {
    if q != [] {
      var front, last := q[..|q|-1], q[|q|-1];
      assert q == front + [last];
      WithoutExisting(deps, deps', n, front);
      WithoutConcat(front, [last], n);
      WithoutConcat(Existing(deps', front), if last in deps' then [last] else [], n);
      var r := Without(front, n);
      if last != n {
        assert Without([last], n) == [last];
        assert (r + [last])[..|r|] == r;
      } else {
        assert Without([last], n) == [];
        assert r + [] == r;
      }
    }
  }

  /** Adding an artifact that nothing names leaves the order of all the others as it was. */
  lemma {:induction false} CreationKeepsOrder(deps: Deps, deps': Deps, n: string)
    requires Appended(deps, deps', n)
    ensures Without(Ordered(deps'), n) == Ordered(deps)
  {
    RootsScheduled(deps);
    RootsScheduled(deps');
    RootsInStep(deps, deps', n);
    PoppedBounded(deps', [] + InOrder(Roots(deps')));
    DrainInStep(deps, deps', n, [], InOrder(Roots(deps')));
    WithoutExisting(deps, deps', n, Drain(deps', [], InOrder(Roots(deps'))));
  }

  lemma RootsInStep(deps: Deps, deps': Deps, n: string)
    requires Appended(deps, deps', n)
    ensures Without(InOrder(Roots(deps')), n) == InOrder(Roots(deps))
  {
    forall x ensures x in Roots(deps') - {n} <==> x in Roots(deps) {
    }
    WithoutInOrder(Roots(deps'), Roots(deps), n);
  }
}
