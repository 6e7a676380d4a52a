/** Edits that a query does not see, and runs that end wrong. */
module HiddenEdits {
  import opened Names
  import opened CausalOrder
  import opened Frontier
  import opened ArtifactIndexing
  import opened IndexFreshness
  import opened Options

  // ----- families -----

  /** The guard finds the entry stale against these folders and this time of the index file. */
  predicate Seen(entry: TypeIndex, fs: Folders, mtime: int) {
    || entry.version != VERSION || entry.directories != Artifacts(fs)
    || exists n :: n in Artifacts(fs) && FolderNewer(fs[n], mtime)
  }

  /** After an edit, and before anything is saved, a query is fresh exactly when the edit is seen or the statuses that
      it changes, and those changed since the entry was built, are harmless. An edit is not seen if its files get the
      very time of the index file, or if a main document is deleted and an older `external.yaml` remains. */
  lemma {:induction false} EditIsSeenIff(h: History, w: World, id: nat, t: ArtifactType, edited: Folders, w': World,
                                         built: Folders)
    requires Step(h, w, ChangeFolders(t, edited), w') && t in WorkingIndex(w, id)
    requires BuiltFrom(WorkingIndex(w, id)[t], t, built) && Respects(h, t, built)
    ensures AnswersFresh(w', id, t) <==>
              Seen(WorkingIndex(w, id)[t], edited, w.indexMtime) || StatusesHarmless(t, built, edited)
  {
    StaleIffUnseen(w', id, t, WorkingIndex(w, id)[t]);
    AnswerIsFreshIff(h, w', id, t, built);
  }

  lemma StaleIffUnseen(w: World, id: nat, t: ArtifactType, entry: TypeIndex)
    requires t in WorkingIndex(w, id) && WorkingIndex(w, id)[t] == entry
    ensures StaleFor(w, id, t) <==> Seen(entry, FoldersIn(w, t), w.indexMtime)
  {
    var fs, m := FoldersIn(w, t), w.indexMtime;
    forall n | n in Artifacts(fs)
      ensures FolderNewer(fs[n], m) <==> FileNewer(fs[n].main, m) || FileNewer(fs[n].external, m)
    {
    }
  }

  /** An edit of type `t`, and then a save for another type or by another instance: the query after it is fresh exactly
      when the edit is later than that save, or changes the set of directories, or is harmless. */
  lemma {:induction false} SaveHidesEdit(h: History, w: World, id: nat, t: ArtifactType, edited: Folders, w1: World,
                                         a: Action, w2: World, built: Folders)
    requires Step(h, w, ChangeFolders(t, edited), w1) && Step(h, w1, a, w2) && Saves(w1, a)
    requires id in w.caches && w.caches[id].Some? && t in w.caches[id].value && !(a.id == id && a.t == t)
    requires BuiltFrom(w.caches[id].value[t], t, built) && Respects(h, t, built)
    ensures AnswersFresh(w2, id, t) <==>
              Seen(w.caches[id].value[t], edited, a.now) || StatusesHarmless(t, built, edited)
  {
    SaveKeepsEntry(h, w, id, t, edited, w1, a, w2);
    StaleIffUnseen(w2, id, t, w.caches[id].value[t]);
    AnswerIsFreshIff(h, w2, id, t, built);
  }

  lemma SaveKeepsEntry(h: History, w: World, id: nat, t: ArtifactType, edited: Folders, w1: World, a: Action, w2: World)
    requires Step(h, w, ChangeFolders(t, edited), w1) && Step(h, w1, a, w2) && Saves(w1, a)
    requires id in w.caches && w.caches[id].Some? && t in w.caches[id].value && !(a.id == id && a.t == t)
    ensures FoldersIn(w2, t) == edited && w2.indexMtime == a.now && Respects(h, t, edited)
    ensures t in WorkingIndex(w2, id) && WorkingIndex(w2, id)[t] == w.caches[id].value[t]
  {
    UseStep(h, w1, Provenance(map[], map[]), a, w2);
    assert w1.caches == w.caches && FoldersIn(w1, t) == edited;
    SavedWorld(w1, a, id, t);
  }

  /** A save touches neither folders nor the entries of other types and other instances. */
  lemma SavedWorld(w: World, a: Action, id: nat, t: ArtifactType)
    requires (a.Query? || a.ForceRebuild?) && Saves(w, a)
    requires id in w.caches && w.caches[id].Some? && t in w.caches[id].value && !(a.id == id && a.t == t)
    ensures var w' := WorldAfterUse(w, a);
            && w'.folders == w.folders && w'.indexMtime == a.now
            && t in WorkingIndex(w', id) && WorkingIndex(w', id)[t] == w.caches[id].value[t]
  {
    if a.id == id {
      assert WorkingIndex(w, id) == w.caches[id].value;
    }
  }

  // ----- runs that end in a wrong answer -----

  function OneFolder(status: string, mtime: int): Folders {
    map["a" := Folder(Some(File([], Some(status), mtime)), None)]
  }

  lemma OneArtifactOrder(deps: Deps)
    requires deps == map["a" := []]
    ensures Ordered(deps) == ["a"]
  {
    OrderedIsCausal(deps);
    OrderedIsFixpoint(deps, "a");
    OnlyMember(Ordered(deps), "a");
  }

  lemma OneArtifactTips(deps: Deps)
    requires deps == map["a" := []]
    ensures Tips(deps, {"a"}) == ["a"] && Tips(deps, {}) == []
  {
    OneArtifactOrder(deps);
    assert !NamedByEligible(deps, {"a"}, "a");
    OnlyMember(Tips(deps, {"a"}), "a");
    DistinctLength(Tips(deps, {}));
    assert Elems(Tips(deps, {})) == {};
  }

  lemma OneFolderEligible(mtime: int)
    ensures EligibleIn(CHUNK, OneFolder("ACTIVE", mtime)) == {"a"}
    ensures EligibleIn(CHUNK, OneFolder("HISTORICAL", mtime)) == {}
  {
    assert "HISTORICAL"[0] == 'H';
    assert "ACTIVE"[0] == 'A' && "IMPLEMENTING"[0] == 'I' && "EXTERNAL"[0] == 'E';
  }

  /** Retiring the only chunk takes it off the frontier, so an entry from before is wrong. */
  lemma RetiringChangesTips(before: int, after: int)
    ensures FreshBuild(CHUNK, OneFolder("ACTIVE", before)).tips == ["a"]
    ensures FreshBuild(CHUNK, OneFolder("HISTORICAL", after)).tips == []
  {
    var deps: Deps := map["a" := []];
    assert DepsIn(OneFolder("ACTIVE", before)) == deps && DepsIn(OneFolder("HISTORICAL", after)) == deps;
    OneArtifactTips(deps);
    OneFolderEligible(before);
    OneFolderEligible(after);
  }

  ghost predicate Enabled(h: History, w: World, a: Action) {
    && (a.Query? || a.ForceRebuild? ==> a.id in w.caches)
    && (a.ChangeFolders? ==> Respects(h, a.t, a.folders))
  }

  ghost function After(w: World, a: Action): World {
    match a
    case Start(id) => w.(caches := w.caches[id := None])
    case Query(_, _, _) => WorldAfterUse(w, a)
    case ForceRebuild(_, _, _) => WorldAfterUse(w, a)
    case ChangeFolders(t, fs) => w.(folders := w.folders[t := fs])
    case LoseIndexFile => w.(indexFile := None, indexMtime := 0)
  }

  lemma AfterIsStep(h: History, w: World, a: Action)
    requires Enabled(h, w, a)
    ensures Step(h, w, a, After(w, a))
  {
  }

  ghost function Worlds(w: World, acts: seq<Action>): (ws: seq<World>)
    ensures |ws| == |acts| + 1
  {
    if acts == [] then [w] else
      var before := Worlds(w, acts[..|acts|-1]);
      before + [After(before[|acts|-1], acts[|acts|-1])]
  }

  const NOTHING := World(map[], None, 0, map[])

  ghost predicate Plays(h: History, acts: seq<Action>, w: World) {
    Run(h, Worlds(NOTHING, acts), acts) && Worlds(NOTHING, acts)[|acts|] == w
  }

  lemma PlayNothing(h: History)
    ensures Plays(h, [], NOTHING)
  {
  }

  lemma PlayOne(h: History, acts: seq<Action>, w: World, a: Action)
    requires Plays(h, acts, w) && Enabled(h, w, a)
    ensures Plays(h, acts + [a], After(w, a))
  {
    var more := acts + [a];
    assert more[..|acts|] == acts;
    AfterIsStep(h, w, a);
    var ws := Worlds(NOTHING, more);
    forall i | 0 <= i < |more| ensures Step(h, ws[i], more[i], ws[i+1]) {
      if i < |acts| { assert Step(h, Worlds(NOTHING, acts)[i], acts[i], Worlds(NOTHING, acts)[i+1]); }
    }
  }

  function NoParents(): History {
    (_, _) => []
  }

  function OldChunk(): Folders {
    OneFolder("ACTIVE", 1)
  }

  ghost function FirstIndex(): Index {
    map[CHUNK := FreshBuild(CHUNK, OldChunk())]
  }

  /** Two instances have loaded the index of one ACTIVE chunk, saved at time 2. */
  ghost function TwoUsers(): World {
    World(map[CHUNK := OldChunk()], Some(FirstIndex()), 2, map[0 := Some(FirstIndex()), 1 := Some(FirstIndex())])
  }

  function Opening(): seq<Action> {
    [Start(0)] + [Start(1)] + [ChangeFolders(CHUNK, OldChunk())] + [Query(0, CHUNK, 2)] + [Query(1, CHUNK, 2)]
  }

  lemma OpeningPlays()
    ensures Plays(NoParents(), Opening(), TwoUsers())
  {
    var h := NoParents();
    var w1, w2 := After(NOTHING, Start(0)), World(map[], None, 0, map[0 := None, 1 := None]);
    var w3 := w2.(folders := map[CHUNK := OldChunk()]);
    var w4 := World(w3.folders, Some(FirstIndex()), 2, map[0 := Some(FirstIndex()), 1 := None]);
    PlayNothing(h);
    PlayOne(h, [], NOTHING, Start(0));
    assert [] + [Start(0)] == [Start(0)];
    PlayOne(h, [Start(0)], w1, Start(1));
    assert After(w1, Start(1)) == w2;
    PlayOne(h, [Start(0)] + [Start(1)], w2, ChangeFolders(CHUNK, OldChunk()));
    assert After(w2, ChangeFolders(CHUNK, OldChunk())) == w3;
    PlayOne(h, [Start(0)] + [Start(1)] + [ChangeFolders(CHUNK, OldChunk())], w3, Query(0, CHUNK, 2));
    FirstQuery(w3, w4);
    PlayOne(h, [Start(0)] + [Start(1)] + [ChangeFolders(CHUNK, OldChunk())] + [Query(0, CHUNK, 2)], w4,
            Query(1, CHUNK, 2));
    SecondQuery(w4);
  }

  lemma FirstQuery(w3: World, w4: World)
    requires w3 == World(map[CHUNK := OldChunk()], None, 0, map[0 := None, 1 := None])
    requires w4 == World(w3.folders, Some(FirstIndex()), 2, map[0 := Some(FirstIndex()), 1 := None])
    ensures After(w3, Query(0, CHUNK, 2)) == w4
  {
    assert WorkingIndex(w3, 0) == map[];
    assert w3.caches[0 := Some(FirstIndex())] == w4.caches;
  }

  lemma SecondQuery(w4: World)
    requires w4 == World(map[CHUNK := OldChunk()], Some(FirstIndex()), 2, map[0 := Some(FirstIndex()), 1 := None])
    ensures After(w4, Query(1, CHUNK, 2)) == TwoUsers()
  {
    StaleIffUnseen(w4, 1, CHUNK, FirstIndex()[CHUNK]);
    assert w4.caches[1 := Some(FirstIndex())] == TwoUsers().caches;
  }

  /** The run ends in a query of instance 0 that answers with a tip where there is none. */
  ghost predicate EndsWrong(h: History, ws: seq<World>, acts: seq<Action>) {
    && Run(h, ws, acts) && acts != [] && acts[|acts|-1] == Query(0, CHUNK, 5)
    && Answer(ws[|acts|-1], 0, CHUNK).tips == ["a"] && FreshBuild(CHUNK, FoldersIn(ws[|acts|-1], CHUNK)).tips == []
  }

  lemma WrongEnd(h: History, acts: seq<Action>, w: World, mtime: int)
    requires Plays(h, acts, w) && 0 in w.caches && FoldersIn(w, CHUNK) == OneFolder("HISTORICAL", mtime)
    requires Answer(w, 0, CHUNK) == FirstIndex()[CHUNK]
    ensures EndsWrong(h, Worlds(NOTHING, acts + [Query(0, CHUNK, 5)]), acts + [Query(0, CHUNK, 5)])
  {
    PlayOne(h, acts, w, Query(0, CHUNK, 5));
    assert (acts + [Query(0, CHUNK, 5)])[..|acts|] == acts;
    RetiringChangesTips(1, mtime);
  }

  function Retire(mtime: int): Action {
    ChangeFolders(CHUNK, OneFolder("HISTORICAL", mtime))
  }

  lemma RetiredIsUnseen(mtime: int, saved: int)
    requires mtime <= saved
    ensures !Seen(FirstIndex()[CHUNK], OneFolder("HISTORICAL", mtime), saved)
    ensures FirstIndex()[CHUNK] != FreshBuild(CHUNK, OneFolder("HISTORICAL", mtime))
  {
    FirstEntry();
    OneFolderUnseen(FirstIndex()[CHUNK], OneFolder("HISTORICAL", mtime), mtime, saved);
    RetiringChangesTips(1, mtime);
  }

  lemma OneFolderUnseen(entry: TypeIndex, fs: Folders, mtime: int, saved: int)
    requires mtime <= saved && fs.Keys == {"a"} && fs["a"].main.Some? && fs["a"].external.None?
    requires fs["a"].main.value.mtime == mtime && entry.version == VERSION && entry.directories == {"a"}
    ensures !Seen(entry, fs, saved)
  {
    assert Artifacts(fs) == {"a"};
  }

  lemma FirstEntry()
    ensures FirstIndex()[CHUNK].version == VERSION && FirstIndex()[CHUNK].directories == {"a"}
  {
    assert Artifacts(OldChunk()) == {"a"};
  }

  lemma HiddenAnswer(w: World, mtime: int)
    requires 0 in w.caches && w.caches[0].Some? && CHUNK in w.caches[0].value
    requires w.caches[0].value[CHUNK] == FirstIndex()[CHUNK]
    requires FoldersIn(w, CHUNK) == OneFolder("HISTORICAL", mtime) && mtime <= w.indexMtime
    ensures Answer(w, 0, CHUNK) == FirstIndex()[CHUNK]
  {
    RetiredIsUnseen(mtime, w.indexMtime);
    StaleIffUnseen(w, 0, CHUNK, FirstIndex()[CHUNK]);
  }

  /** A save for another type comes between the edit and the query. */
  lemma {:induction false} OtherTypeHides() returns (h: History, ws: seq<World>, acts: seq<Action>)
    ensures EndsWrong(h, ws, acts)
  {
    h := NoParents();
    var w := After(TwoUsers(), Retire(3));
    OpeningPlays();
    PlayOne(h, Opening(), TwoUsers(), Retire(3));
    PlayOne(h, Opening() + [Retire(3)], w, Query(0, NARRATIVE, 4));
    acts := Opening() + [Retire(3)] + [Query(0, NARRATIVE, 4)];
    HiddenAnswer(After(w, Query(0, NARRATIVE, 4)), 3);
    WrongEnd(h, acts, After(w, Query(0, NARRATIVE, 4)), 3);
    acts := acts + [Query(0, CHUNK, 5)];
    ws := Worlds(NOTHING, acts);
  }

  /** Another instance rebuilds and saves the same type. */
  lemma {:induction false} OtherInstanceHides() returns (h: History, ws: seq<World>, acts: seq<Action>)
    ensures EndsWrong(h, ws, acts)
  {
    h := NoParents();
    var w := After(TwoUsers(), Retire(3));
    OpeningPlays();
    PlayOne(h, Opening(), TwoUsers(), Retire(3));
    PlayOne(h, Opening() + [Retire(3)], w, Query(1, CHUNK, 4));
    acts := Opening() + [Retire(3)] + [Query(1, CHUNK, 4)];
    assert FolderNewer(OneFolder("HISTORICAL", 3)["a"], 2) && "a" in Artifacts(OneFolder("HISTORICAL", 3));
    StaleIffUnseen(w, 1, CHUNK, FirstIndex()[CHUNK]);
    HiddenAnswer(After(w, Query(1, CHUNK, 4)), 3);
    WrongEnd(h, acts, After(w, Query(1, CHUNK, 4)), 3);
    acts := acts + [Query(0, CHUNK, 5)];
    ws := Worlds(NOTHING, acts);
  }

  /** The edit gets the very time of the index file. */
  lemma {:induction false} SameTimeHides() returns (h: History, ws: seq<World>, acts: seq<Action>)
    ensures EndsWrong(h, ws, acts)
  {
    h := NoParents();
    OpeningPlays();
    PlayOne(h, Opening(), TwoUsers(), Retire(2));
    acts := Opening() + [Retire(2)];
    HiddenAnswer(After(TwoUsers(), Retire(2)), 2);
    WrongEnd(h, acts, After(TwoUsers(), Retire(2)), 2);
    acts := acts + [Query(0, CHUNK, 5)];
    ws := Worlds(NOTHING, acts);
  }
}
