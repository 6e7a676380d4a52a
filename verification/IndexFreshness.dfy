/** When a query answers fresh tips, and when not. */
module IndexFreshness {
  import opened Names
  import opened CausalOrder
  import opened Frontier
  import opened ArtifactIndexing
  import opened Options

  // ----- what every stored entry was built from -----

  type Built = map<ArtifactType, Folders>

  /** For the index file and for every cache: the folders that each entry was built from. */
  datatype Provenance = Provenance(file: Built, caches: map<nat, Built>)

  function BuiltOf(p: Provenance, id: nat): Built {
    if id in p.caches then p.caches[id] else map[]
  }

  /** Where the index comes from that an instance works on. */
  function WorkingBuilt(w: World, p: Provenance, id: nat): Built {
    if id in w.caches && w.caches[id].Some? then BuiltOf(p, id) else if w.indexFile.Some? then p.file else map[]
  }

  predicate StaleFor(w: World, id: nat, t: ArtifactType) {
    IsStale(WorkingIndex(w, id), t, FoldersIn(w, t), w.indexMtime)
  }

  /** The action writes the index file. */
  predicate Saves(w: World, a: Action) {
    a.ForceRebuild? || (a.Query? && StaleFor(w, a.id, a.t))
  }

  function Track(w: World, p: Provenance, a: Action): Provenance {
    if a.Start? then p.(caches := p.caches[a.id := map[]])
    else if a.LoseIndexFile? then p.(file := map[])
    else if a.ChangeFolders? then p
    else
      var b := WorkingBuilt(w, p, a.id);
      var b' := if Saves(w, a) then b[a.t := FoldersIn(w, a.t)] else b;
      Provenance(if Saves(w, a) then b' else p.file, p.caches[a.id := b'])
  }

  function TrackAll(ws: seq<World>, acts: seq<Action>, k: nat): Provenance
    requires k <= |acts| < |ws|
  {
    if k == 0 then Provenance(map[], map[]) else Track(ws[k-1], TrackAll(ws, acts, k - 1), acts[k-1])
  }

  ghost predicate Describes(index: Index, b: Built) {
    index.Keys == b.Keys && forall t :: t in index ==> BuiltFrom(index[t], t, b[t])
  }

  ghost predicate BuiltFrom(entry: TypeIndex, t: ArtifactType, fs: Folders) {
    entry == FreshBuild(t, fs)
  }

  lemma RebuiltDescribed(index: Index, b: Built, t: ArtifactType, entry: TypeIndex, fs: Folders)
    requires Describes(index, b) && BuiltFrom(entry, t, fs)
    ensures Describes(index[t := entry], b[t := fs])
  {
    var index', b' := index[t := entry], b[t := fs];
    forall u | u in index' ensures BuiltFrom(index'[u], u, b'[u]) {
      if u != t { assert BuiltFrom(index[u], u, b[u]); }
    }
  }

  ghost predicate AllDescribed(w: World, p: Provenance) {
    && (w.indexFile.Some? ==> Describes(w.indexFile.value, p.file))
    && (forall id :: id in w.caches && w.caches[id].Some? ==> Describes(w.caches[id].value, BuiltOf(p, id)))
  }

  lemma WorkingDescribed(w: World, p: Provenance, id: nat)
    requires AllDescribed(w, p)
    ensures Describes(WorkingIndex(w, id), WorkingBuilt(w, p, id))
  {
  }

  /** The index of an instance after it is asked or told to rebuild, and what it was built from. */
  ghost function Used(w: World, a: Action): Index
    requires a.Query? || a.ForceRebuild?
  {
    if Saves(w, a) then WorkingIndex(w, a.id)[a.t := FreshBuild(a.t, FoldersIn(w, a.t))] else WorkingIndex(w, a.id)
  }

  function UsedBuilt(w: World, p: Provenance, a: Action): Built
    requires a.Query? || a.ForceRebuild?
  {
    if Saves(w, a) then WorkingBuilt(w, p, a.id)[a.t := FoldersIn(w, a.t)] else WorkingBuilt(w, p, a.id)
  }

  ghost function WorldAfterUse(w: World, a: Action): World
    requires a.Query? || a.ForceRebuild?
  {
    var index := Used(w, a);
    if Saves(w, a) then w.(caches := w.caches[a.id := Some(index)], indexFile := Some(index), indexMtime := a.now)
    else w.(caches := w.caches[a.id := Some(index)])
  }

  function ProvenanceAfterUse(w: World, p: Provenance, a: Action): Provenance
    requires a.Query? || a.ForceRebuild?
  {
    var b := UsedBuilt(w, p, a);
    Provenance(if Saves(w, a) then b else p.file, p.caches[a.id := b])
  }

  lemma UseStep(h: History, w: World, p: Provenance, a: Action, w': World)
    requires Step(h, w, a, w') && (a.Query? || a.ForceRebuild?)
    ensures w' == WorldAfterUse(w, a)
    ensures Track(w, p, a) == ProvenanceAfterUse(w, p, a)
  {
  }

  lemma UsedDescribed(w: World, p: Provenance, a: Action)
    requires AllDescribed(w, p) && (a.Query? || a.ForceRebuild?)
    ensures Describes(Used(w, a), UsedBuilt(w, p, a))
  {
    WorkingDescribed(w, p, a.id);
    var fs := FoldersIn(w, a.t);
    RebuiltDescribed(WorkingIndex(w, a.id), WorkingBuilt(w, p, a.id), a.t, FreshBuild(a.t, fs), fs);
  }

  lemma UseKeepsDescribed(w: World, p: Provenance, id: nat, index: Index, b: Built, w': World, p': Provenance)
    requires AllDescribed(w, p) && Describes(index, b)
    requires w'.caches == w.caches[id := Some(index)] && p'.caches == p.caches[id := b]
    requires (w'.indexFile == w.indexFile && p'.file == p.file) || (w'.indexFile == Some(index) && p'.file == b)
    ensures AllDescribed(w', p')
  {
    forall j | j in w'.caches && w'.caches[j].Some? ensures Describes(w'.caches[j].value, BuiltOf(p', j)) {
      if j != id {
        OtherCache(w, p, id, index, b, w', p', j);
      }
    }
  }

  lemma OtherCache(w: World, p: Provenance, id: nat, index: Index, b: Built, w': World, p': Provenance, j: nat)
    requires w'.caches == w.caches[id := Some(index)] && p'.caches == p.caches[id := b]
    requires j in w'.caches && j != id
    ensures j in w.caches && w'.caches[j] == w.caches[j] && BuiltOf(p', j) == BuiltOf(p, j)
  {
  }

  lemma StepKeepsDescribed(h: History, w: World, p: Provenance, a: Action, w': World)
    requires AllDescribed(w, p) && Step(h, w, a, w')
    ensures AllDescribed(w', Track(w, p, a))
  {
    if a.Query? || a.ForceRebuild? {
      UseStep(h, w, p, a, w');
      UsedDescribed(w, p, a);
      UseKeepsDescribed(w, p, a.id, Used(w, a), UsedBuilt(w, p, a), w', Track(w, p, a));
    }
  }

  lemma {:induction false} RunDescribed(h: History, ws: seq<World>, acts: seq<Action>, k: nat)
    requires Run(h, ws, acts) && k < |ws|
    ensures AllDescribed(ws[k], TrackAll(ws, acts, k))
  {
    if k == 0 {
      StartDescribed(ws, acts);
    } else {
      RunDescribed(h, ws, acts, k - 1);
      RunStepDescribed(h, ws, acts, k);
    }
  }

  lemma StartDescribed(ws: seq<World>, acts: seq<Action>)
    requires |ws| > |acts| && ws[0] == World(map[], None, 0, map[])
    ensures AllDescribed(ws[0], TrackAll(ws, acts, 0))
  {
  }

  lemma RunStepDescribed(h: History, ws: seq<World>, acts: seq<Action>, i: nat)
    requires Run(h, ws, acts) && 0 < i < |ws| && AllDescribed(ws[i-1], TrackAll(ws, acts, i - 1))
    ensures AllDescribed(ws[i], TrackAll(ws, acts, i))
  {
    assert Step(h, ws[i-1], acts[i-1], ws[i-1+1]);
    StepKeepsDescribed(h, ws[i-1], TrackAll(ws, acts, i - 1), acts[i-1], ws[i]);
  }

  // ----- the exact condition at one query -----

  /** The entry that a query of `t` by instance `id` answers with. */
  ghost function Answer(w: World, id: nat, t: ArtifactType): TypeIndex {
    if StaleFor(w, id, t) then FreshBuild(t, FoldersIn(w, t)) else WorkingIndex(w, id)[t]
  }

  ghost predicate AnswersFresh(w: World, id: nat, t: ArtifactType) {
    Answer(w, id, t) == FreshBuild(t, FoldersIn(w, t))
  }

  /** What an entry was built from had the parent lists of every other moment. */
  ghost predicate AllRespect(h: History, b: Built) {
    forall t :: t in b ==> Respects(h, t, b[t])
  }

  ghost predicate ProvenanceRespects(h: History, p: Provenance) {
    AllRespect(h, p.file) && forall id :: id in p.caches ==> AllRespect(h, p.caches[id])
  }

  lemma StepKeepsRespect(h: History, w: World, p: Provenance, a: Action)
    requires ProvenanceRespects(h, p) && (a.Query? || a.ForceRebuild?) && Respects(h, a.t, FoldersIn(w, a.t))
    ensures ProvenanceRespects(h, Track(w, p, a))
  {
    var b := WorkingBuilt(w, p, a.id);
    assert AllRespect(h, b);
    assert AllRespect(h, b[a.t := FoldersIn(w, a.t)]);
  }

  lemma FoldersRespect(h: History, w: World, t: ArtifactType)
    requires AllCoherent(h, w)
    ensures Respects(h, t, FoldersIn(w, t))
  {
  }

  lemma {:induction false} RunRespects(h: History, ws: seq<World>, acts: seq<Action>, k: nat)
    requires Run(h, ws, acts) && k < |ws|
    ensures ProvenanceRespects(h, TrackAll(ws, acts, k))
  {
    if k > 0 {
      RunRespects(h, ws, acts, k - 1);
      RunKeepsCoherence(h, ws, acts, k - 1);
      OneStepRespects(h, ws[k-1], TrackAll(ws, acts, k - 1), acts[k-1]);
    }
  }

  lemma OneStepRespects(h: History, w: World, p: Provenance, a: Action)
    requires ProvenanceRespects(h, p) && AllCoherent(h, w)
    ensures ProvenanceRespects(h, Track(w, p, a))
  {
    if a.Query? || a.ForceRebuild? {
      FoldersRespect(h, w, a.t);
      StepKeepsRespect(h, w, p, a);
    }
  }

  /** From the folders `built` to the folders `fs`, the artifacts whose status began or ceased to count leave the
      frontier as it was. */
  ghost predicate StatusesHarmless(t: ArtifactType, built: Folders, fs: Folders) {
    Harmless(DepsIn(fs), EligibleIn(t, built), EligibleIn(t, fs))
  }

  lemma SameGraph(h: History, t: ArtifactType, built: Folders, fs: Folders)
    requires Respects(h, t, built) && Respects(h, t, fs) && Artifacts(built) == Artifacts(fs)
    ensures DepsIn(built) == DepsIn(fs)
    ensures FreshBuild(t, built) == FreshBuild(t, fs) <==> StatusesHarmless(t, built, fs)
  {
    assert DepsIn(built) == HistoryDeps(h, t, Artifacts(built)) == DepsIn(fs);
    StatusChangeKeepsTipsIff(DepsIn(fs), EligibleIn(t, built), EligibleIn(t, fs));
  }

  lemma {:induction false} AnswerIsFreshIff(h: History, w: World, id: nat, t: ArtifactType, built: Folders)
    requires Respects(h, t, FoldersIn(w, t)) && Respects(h, t, built)
    requires !StaleFor(w, id, t) ==> BuiltFrom(WorkingIndex(w, id)[t], t, built)
    ensures AnswersFresh(w, id, t) <==> StaleFor(w, id, t) || StatusesHarmless(t, built, FoldersIn(w, t))
  {
    if !StaleFor(w, id, t) {
      SameGraph(h, t, built, FoldersIn(w, t));
    }
  }

  /** In every run: a query answers the whole entry of a fresh build exactly when its guard finds the index stale, or
      the artifacts that have changed status since the entry was built, and their parents, leave the frontier alone. */
  lemma {:induction false} QueryIsFreshIff(h: History, ws: seq<World>, acts: seq<Action>, k: nat)
    requires Run(h, ws, acts) && k < |acts| && acts[k].Query?
    ensures var w, id, t := ws[k], acts[k].id, acts[k].t;
            var b := WorkingBuilt(w, TrackAll(ws, acts, k), id);
            && AnswerIndex(w, id, t)[t] == Answer(w, id, t)
            && (!StaleFor(w, id, t) ==> t in b)
            && (AnswersFresh(w, id, t) <==> StaleFor(w, id, t) || StatusesHarmless(t, b[t], FoldersIn(w, t)))
  {
    var w, id, t := ws[k], acts[k].id, acts[k].t;
    var p := TrackAll(ws, acts, k);
    RunDescribed(h, ws, acts, k);
    RunRespects(h, ws, acts, k);
    RunKeepsCoherence(h, ws, acts, k);
    FoldersRespect(h, w, t);
    WorkingDescribed(w, p, id);
    if !StaleFor(w, id, t) {
      WorkingRespects(h, w, p, id, t);
      AnswerIsFreshIff(h, w, id, t, WorkingBuilt(w, p, id)[t]);
    }
  }

  lemma WorkingRespects(h: History, w: World, p: Provenance, id: nat, t: ArtifactType)
    requires ProvenanceRespects(h, p) && t in WorkingBuilt(w, p, id)
    ensures Respects(h, t, WorkingBuilt(w, p, id)[t])
  {
  }

  // ----- a discipline under which every query is fresh -----

  predicate FolderNewer(f: Folder, mtime: int) {
    FileNewer(f.main, mtime) || FileNewer(f.external, mtime)
  }

  predicate SameFolder(fs: Folders, fs': Folders, n: string) {
    n in fs && n in fs' && fs[n] == fs'[n]
  }

  /** Every artifact of `fs` is as it is in `built`, or has a file later than `mtime`. */
  predicate Covered(built: Folders, fs: Folders, mtime: int) {
    forall n :: n in Artifacts(fs) ==> SameFolder(built, fs, n) || FolderNewer(fs[n], mtime)
  }

  predicate CoveredIn(index: Index, b: Built, t: ArtifactType, fs: Folders, mtime: int) {
    t in index && t in b ==> Covered(b[t], fs, mtime)
  }

  /** An action that cannot hide an edit of type `t`: what an edit changes gets a time later than the index file, and
      the file is not saved while another entry for `t`, or the saved entry for `t` itself, still lacks an edit. */
  ghost predicate Careful(t: ArtifactType, w: World, p: Provenance, a: Action) {
    && (a.ChangeFolders? && a.t == t ==> Covered(FoldersIn(w, t), a.folders, w.indexMtime))
    && (Saves(w, a) ==>
          && 0 <= a.now
          && (forall id :: id in w.caches && id != a.id && w.caches[id].Some? ==>
                CoveredIn(w.caches[id].value, BuiltOf(p, id), t, FoldersIn(w, t), a.now))
          && (a.t != t ==> CoveredIn(WorkingIndex(w, a.id), WorkingBuilt(w, p, a.id), t, FoldersIn(w, t), a.now)))
  }

  ghost predicate AllCovered(t: ArtifactType, w: World, p: Provenance) {
    && 0 <= w.indexMtime
    && (w.indexFile.Some? ==> CoveredIn(w.indexFile.value, p.file, t, FoldersIn(w, t), w.indexMtime))
    && (forall id :: id in w.caches && w.caches[id].Some? ==>
          CoveredIn(w.caches[id].value, BuiltOf(p, id), t, FoldersIn(w, t), w.indexMtime))
  }

  lemma CoveredEarlier(built: Folders, fs: Folders, mtime: int, earlier: int)
    requires Covered(built, fs, mtime) && earlier <= mtime
    ensures Covered(built, fs, earlier)
  {
  }

  lemma CoveredAfterEdit(built: Folders, fs: Folders, edited: Folders, mtime: int)
    requires Covered(built, fs, mtime) && Covered(fs, edited, mtime)
    ensures Covered(built, edited, mtime)
  {
    forall n | n in Artifacts(edited) ensures SameFolder(built, edited, n) || FolderNewer(edited[n], mtime) {
      if SameFolder(fs, edited, n) { assert n in Artifacts(fs); }
    }
  }

  lemma WorkingCovered(t: ArtifactType, w: World, p: Provenance, id: nat)
    requires AllCovered(t, w, p)
    ensures CoveredIn(WorkingIndex(w, id), WorkingBuilt(w, p, id), t, FoldersIn(w, t), w.indexMtime)
  {
  }

  lemma EditKeepsCovered(t: ArtifactType, w: World, p: Provenance, a: Action, w': World)
    requires AllCovered(t, w, p) && Careful(t, w, p, a)
    requires a.ChangeFolders? && w' == w.(folders := w.folders[a.t := a.folders])
    ensures AllCovered(t, w', p)
  {
    if a.t == t {
      var fs, m := FoldersIn(w, t), w.indexMtime;
      assert FoldersIn(w', t) == a.folders;
      if w.indexFile.Some? && t in w.indexFile.value && t in p.file {
        CoveredAfterEdit(p.file[t], fs, a.folders, m);
      }
      forall id | id in w.caches && w.caches[id].Some?
        ensures CoveredIn(w.caches[id].value, BuiltOf(p, id), t, a.folders, m)
      {
        assert CoveredIn(w.caches[id].value, BuiltOf(p, id), t, fs, m);
        if t in w.caches[id].value && t in BuiltOf(p, id) { CoveredAfterEdit(BuiltOf(p, id)[t], fs, a.folders, m); }
      }
    } else {
      assert FoldersIn(w', t) == FoldersIn(w, t);
    }
  }

  lemma LossKeepsCovered(t: ArtifactType, w: World, p: Provenance, w': World)
    requires AllCovered(t, w, p) && w' == w.(indexFile := None, indexMtime := 0)
    ensures AllCovered(t, w', p.(file := map[]))
  {
    forall id | id in w.caches && w.caches[id].Some?
      ensures CoveredIn(w.caches[id].value, BuiltOf(p, id), t, FoldersIn(w, t), 0)
    {
      assert CoveredIn(w.caches[id].value, BuiltOf(p, id), t, FoldersIn(w, t), w.indexMtime);
      if t in w.caches[id].value && t in BuiltOf(p, id) {
        CoveredEarlier(BuiltOf(p, id)[t], FoldersIn(w, t), w.indexMtime, 0);
      }
    }
  }

  /** A query or a rebuild: the index of the instance, and of the file if it is saved. */
  lemma UseKeepsCovered(t: ArtifactType, w: World, p: Provenance, a: Action)
    requires AllCovered(t, w, p) && Careful(t, w, p, a) && (a.Query? || a.ForceRebuild?)
    ensures AllCovered(t, WorldAfterUse(w, a), ProvenanceAfterUse(w, p, a))
  {
    var saves := Saves(w, a);
    UsedCovered(t, w, p, a, if saves then a.now else w.indexMtime);
    UseCovered(t, w, p, a.id, Used(w, a), UsedBuilt(w, p, a), saves, a.now);
  }

  lemma UseCovered(t: ArtifactType, w: World, p: Provenance, id: nat, index: Index, b: Built, saves: bool, now: int)
    requires AllCovered(t, w, p)
    requires CoveredIn(index, b, t, FoldersIn(w, t), if saves then now else w.indexMtime)
    requires saves ==> 0 <= now && forall j :: j in w.caches && j != id && w.caches[j].Some? ==>
               CoveredIn(w.caches[j].value, BuiltOf(p, j), t, FoldersIn(w, t), now)
    ensures var caches := w.caches[id := Some(index)];
            var w' := if saves then w.(caches := caches, indexFile := Some(index), indexMtime := now)
                     else w.(caches := caches);
            AllCovered(t, w', Provenance(if saves then b else p.file, p.caches[id := b]))
  {
    var caches := w.caches[id := Some(index)];
    var w' := if saves then w.(caches := caches, indexFile := Some(index), indexMtime := now) else w.(caches := caches);
    OthersStayCovered(t, w, p, id, index, b, w', Provenance(if saves then b else p.file, p.caches[id := b]));
  }

  lemma UsedCovered(t: ArtifactType, w: World, p: Provenance, a: Action, m: int)
    requires AllCovered(t, w, p) && Careful(t, w, p, a) && (a.Query? || a.ForceRebuild?)
    requires m == if Saves(w, a) then a.now else w.indexMtime
    ensures CoveredIn(Used(w, a), UsedBuilt(w, p, a), t, FoldersIn(w, t), m)
  {
    WorkingCovered(t, w, p, a.id);
    if Saves(w, a) && a.t == t {
      assert Covered(FoldersIn(w, t), FoldersIn(w, t), m);
    }
  }

  lemma OthersStayCovered(t: ArtifactType, w: World, p: Provenance, id: nat, index: Index, b: Built, w': World,
                          p': Provenance)
    requires w'.caches == w.caches[id := Some(index)] && p'.caches == p.caches[id := b]
    requires FoldersIn(w', t) == FoldersIn(w, t) && 0 <= w'.indexMtime
    requires CoveredIn(index, b, t, FoldersIn(w, t), w'.indexMtime)
    requires forall j :: j in w.caches && j != id && w.caches[j].Some? ==>
               CoveredIn(w.caches[j].value, BuiltOf(p, j), t, FoldersIn(w, t), w'.indexMtime)
    requires (w'.indexFile == Some(index) && p'.file == b)
             || (w'.indexFile.Some? ==> CoveredIn(w'.indexFile.value, p'.file, t, FoldersIn(w, t), w'.indexMtime))
    ensures AllCovered(t, w', p')
  {
    forall j | j in w'.caches && w'.caches[j].Some?
      ensures CoveredIn(w'.caches[j].value, BuiltOf(p', j), t, FoldersIn(w', t), w'.indexMtime)
    {
      if j != id { assert w'.caches[j] == w.caches[j] && BuiltOf(p', j) == BuiltOf(p, j); }
    }
  }

  lemma {:induction false} StepKeepsCovered(h: History, t: ArtifactType, w: World, p: Provenance, a: Action, w': World)
    requires AllCovered(t, w, p) && Careful(t, w, p, a) && Step(h, w, a, w')
    ensures AllCovered(t, w', Track(w, p, a))
  {
    if a.Query? || a.ForceRebuild? {
      UseStep(h, w, p, a, w');
      UseKeepsCovered(t, w, p, a);
    } else if a.ChangeFolders? {
      EditKeepsCovered(t, w, p, a, w');
    } else if a.LoseIndexFile? {
      LossKeepsCovered(t, w, p, w');
    }
  }

  ghost predicate CarefulRun(h: History, ws: seq<World>, acts: seq<Action>, t: ArtifactType) {
    Run(h, ws, acts) && forall i :: 0 <= i < |acts| ==> Careful(t, ws[i], TrackAll(ws, acts, i), acts[i])
  }

  lemma {:induction false} CarefulRunIsCovered(h: History, ws: seq<World>, acts: seq<Action>, t: ArtifactType, k: nat)
    requires CarefulRun(h, ws, acts, t) && k < |ws|
    ensures AllCovered(t, ws[k], TrackAll(ws, acts, k))
  {
    if k > 0 {
      CarefulRunIsCovered(h, ws, acts, t, k - 1);
      assert Step(h, ws[k-1], acts[k-1], ws[k-1+1]);
      StepKeepsCovered(h, t, ws[k-1], TrackAll(ws, acts, k - 1), acts[k-1], ws[k]);
    }
  }

  lemma SameFoldersBuildAlike(t: ArtifactType, fs: Folders, fs': Folders)
    requires Artifacts(fs) == Artifacts(fs') && forall n :: n in Artifacts(fs') ==> SameFolder(fs, fs', n)
    ensures FreshBuild(t, fs) == FreshBuild(t, fs')
  {
    assert forall n :: n in Artifacts(fs') ==> SameFolder(fs, fs', n);
    assert DepsIn(fs) == DepsIn(fs');
    assert EligibleIn(t, fs) == EligibleIn(t, fs');
  }

  lemma CoveredAnswerIsFresh(t: ArtifactType, w: World, p: Provenance, id: nat)
    requires AllDescribed(w, p) && AllCovered(t, w, p)
    ensures AnswersFresh(w, id, t)
  {
    WorkingDescribed(w, p, id);
    WorkingCovered(t, w, p, id);
    if !StaleFor(w, id, t) {
      var b, fs := WorkingBuilt(w, p, id)[t], FoldersIn(w, t);
      assert BuiltFrom(WorkingIndex(w, id)[t], t, b);
      forall n | n in Artifacts(fs) ensures SameFolder(b, fs, n) {
        assert !FolderNewer(fs[n], w.indexMtime);
      }
      SameFoldersBuildAlike(t, b, fs);
    }
  }

  /** In every run of careful actions, by any number of instances and on all types, every instance would at every moment
      answer a query of `t` with the whole entry of a fresh build, tips included. */
  lemma {:induction false} CarefulQueriesAreFresh(h: History, ws: seq<World>, acts: seq<Action>, t: ArtifactType,
                                                  k: nat, id: nat)
    requires CarefulRun(h, ws, acts, t) && k < |ws|
    ensures AnswersFresh(ws[k], id, t)
  {
    RunDescribed(h, ws, acts, k);
    CarefulRunIsCovered(h, ws, acts, t, k);
    CoveredAnswerIsFresh(t, ws[k], TrackAll(ws, acts, k), id);
  }

  // ----- one instance, one type -----

  /** Only instance `id` asks, only for type `t`, and what an edit changes gets a time later than the index file. */
  predicate SoleUse(t: ArtifactType, id: nat, w: World, a: Action) {
    && (a.Query? || a.ForceRebuild? ==> a.id == id && a.t == t && 0 <= a.now)
    && (a.ChangeFolders? && a.t == t ==> Covered(FoldersIn(w, t), a.folders, w.indexMtime))
  }

  lemma {:induction false} OthersHoldNothing(h: History, ws: seq<World>, acts: seq<Action>, t: ArtifactType, id: nat,
                                             k: nat)
    requires Run(h, ws, acts) && k < |ws| && forall i :: 0 <= i < |acts| ==> SoleUse(t, id, ws[i], acts[i])
    ensures forall j :: j in ws[k].caches && j != id ==> ws[k].caches[j].None?
  {
    if k > 0 {
      OthersHoldNothing(h, ws, acts, t, id, k - 1);
      assert Step(h, ws[k-1], acts[k-1], ws[k-1+1]) && SoleUse(t, id, ws[k-1], acts[k-1]);
    }
  }

  /** With one instance in use and one type, restarts and losses of the file included, every query is fresh as long as
      edits get times later than the index file. */
  lemma {:induction false} SoleUserIsFresh(h: History, ws: seq<World>, acts: seq<Action>, t: ArtifactType, id: nat,
                                           k: nat)
    requires Run(h, ws, acts) && k < |ws| && forall i :: 0 <= i < |acts| ==> SoleUse(t, id, ws[i], acts[i])
    ensures AnswersFresh(ws[k], id, t)
  {
    forall i | 0 <= i < |acts| ensures Careful(t, ws[i], TrackAll(ws, acts, i), acts[i]) {
      assert SoleUse(t, id, ws[i], acts[i]);
      OthersHoldNothing(h, ws, acts, t, id, i);
    }
    CarefulQueriesAreFresh(h, ws, acts, t, k, id);
  }
}
