/** Earlier active chunks that share code with a chunk. */
module ChunkOverlap {
  import opened Names
  import opened Options
  import opened CausalOrder
  import TopologicalSort
  import Symbols

  const LOCAL_PROJECT := "."

  datatype ChunkDoc = ChunkDoc(status: string, refs: seq<string>)

  /** The chunk directories; `None` where the frontmatter does not parse. */
  type Catalog = map<string, Option<ChunkDoc>>

  predicate Candidate(catalog: Catalog, name: string) {
    name in catalog && catalog[name].Some? && catalog[name].value.status == "ACTIVE" && catalog[name].value.refs != []
  }

  ghost predicate Affects(catalog: Catalog, deps: Deps, refs: seq<string>, target: string, name: string) {
    && target in deps && name in deps && IsAncestor(deps, target, name) && Candidate(catalog, name)
    && Symbols.ListsOverlap(refs, catalog[name].value.refs, LOCAL_PROJECT)
  }

  ghost function Affected(catalog: Catalog, deps: Deps, refs: seq<string>, target: string): set<string> {
    set n | n in catalog && Affects(catalog, deps, refs, target, n)
  }

  /** With the local project as context no reference fails to parse. */
  lemma NothingRaises(refsA: seq<string>, refsB: seq<string>)
    ensures !Symbols.ListsRaise(refsA, refsB, LOCAL_PROJECT)
  {
    forall i, j | 0 <= i < |refsA| && 0 <= j < |refsB| ensures !Symbols.PairRaises(refsA[i], refsB[j], LOCAL_PROJECT) {
      Symbols.QualifiedParses(refsA[i], LOCAL_PROJECT);
      Symbols.QualifiedParses(refsB[j], LOCAL_PROJECT);
    }
  }

  method SharesReferences(refsA: seq<string>, refsB: seq<string>) returns (overlap: bool)
    ensures overlap <==> Symbols.ListsOverlap(refsA, refsB, LOCAL_PROJECT)
  {
    NothingRaises(refsA, refsB);
    var answer := Symbols.ComputeSymbolicOverlap(refsA, refsB, LOCAL_PROJECT);
    assert answer.Some?;
    overlap := answer.value;
    assert answer == Some(overlap);
  }

  /** `find_overlapping_chunks`; `None` is the ValueError for a chunk that is missing or does not parse. */
  method FindOverlappingChunks(catalog: Catalog, deps: Deps, target: string) returns (found: Option<seq<string>>)
    ensures found.None? <==> target !in catalog || catalog[target].None?
    ensures found.Some? ==> found.value == InOrder(Affected(catalog, deps, catalog[target].value.refs, target))
    ensures found.Some? ==>
      forall n :: n in found.value <==>
        && n in catalog && catalog[n].Some? && catalog[n].value.status == "ACTIVE"
        && target in deps && n in deps && IsAncestor(deps, target, n)
        && Symbols.ListsOverlap(catalog[target].value.refs, catalog[n].value.refs, ".")
  {
    if target !in catalog || catalog[target].None? {
      return None;
    }
    var refs := catalog[target].value.refs;
    ghost var affected := Affected(catalog, deps, refs, target);
    if refs == [] {
      assert affected == {};
      return Some([]);
    }
    var ancestors := TopologicalSort.GetAncestors(deps, target);
    var names: set<string> := {};
    var todo := catalog.Keys;
    while todo != {}
      invariant todo <= catalog.Keys && names == affected - todo
      decreases todo
    {
      var name :| name in todo;
      if name in ancestors && Candidate(catalog, name) {
        var overlap := SharesReferences(refs, catalog[name].value.refs);
        assert overlap <==> Affects(catalog, deps, refs, target, name);
        if overlap {
          names := names + {name};
        }
      } else {
        assert !Affects(catalog, deps, refs, target, name);
      }
      todo := todo - {name};
    }
    assert names == affected;
    var sorted := SortSet(names);
    found := Some(sorted);
  }

  ghost predicate AllWellFormed(refs: seq<string>) {
    forall q :: q in refs ==>
      Symbols.Parse(Symbols.QualifyRef(q, LOCAL_PROJECT)).Some?
      && Symbols.WellFormed(Symbols.Parse(Symbols.QualifyRef(q, LOCAL_PROJECT)).value)
  }

  /** For well-formed references, a chunk is affected exactly when it is an active ancestor and some code lies under a
      reference of each of the two. */
  lemma {:induction false} AffectedShareCode(catalog: Catalog, deps: Deps, refs: seq<string>, target: string,
                                             name: string)
    requires Candidate(catalog, name) && target in deps && name in deps
    requires AllWellFormed(refs) && AllWellFormed(catalog[name].value.refs)
    ensures name in Affected(catalog, deps, refs, target) <==>
              IsAncestor(deps, target, name)
              && Symbols.MeaningsOverlap(refs, catalog[name].value.refs, LOCAL_PROJECT)
  {
    Symbols.WellFormedOverlapIsIntersection(refs, catalog[name].value.refs, LOCAL_PROJECT);
  }

  /** In an acyclic history affected chunks come earlier in the causal order than the chunk that affects them. */
  lemma {:induction false} AffectedComeEarlier(catalog: Catalog, deps: Deps, refs: seq<string>, target: string,
                                               name: string)
    requires name in Affected(catalog, deps, refs, target) && target in Ordered(deps)
    ensures exists i, j :: 0 <= i < j < |Ordered(deps)| && Ordered(deps)[i] == name && Ordered(deps)[j] == target
  {
    var j :| 0 <= j < |Ordered(deps)| && Ordered(deps)[j] == target;
    AncestorsComeEarlier(deps, j, name);
    var i :| 0 <= i < j && Ordered(deps)[..j][i] == name;
    assert Ordered(deps)[i] == name;
  }
}
