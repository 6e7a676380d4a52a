/** The persisted index of causal orders. */
module ArtifactIndexing {
  import opened Names
  import opened CausalOrder
  import opened Frontier
  import Sorter = TopologicalSort
  import opened Options

  datatype ArtifactType = CHUNK | NARRATIVE | INVESTIGATION | SUBSYSTEM

  /** A main document or an `external.yaml`: its frontmatter fields and its modification time. */
  datatype File = File(createdAfter: seq<string>, status: Option<string>, mtime: int)

  /** A directory under docs/<type>/. */
  datatype Folder = Folder(main: Option<File>, external: Option<File>)

  type Folders = map<string, Folder>

  predicate IsArtifact(f: Folder) {
    f.main.Some? || f.external.Some?
  }

  function Artifacts(fs: Folders): set<string> {
    set n | n in fs && IsArtifact(fs[n])
  }

  /** The main document wins over `external.yaml` when a directory holds both. */
  function CreatedAfter(f: Folder): seq<string>
    requires IsArtifact(f)
  {
    if f.main.Some? then f.main.value.createdAfter else f.external.value.createdAfter
  }

  function StatusOf(f: Folder): Option<string>
    requires IsArtifact(f)
  {
    if f.main.Some? then f.main.value.status else Some("EXTERNAL")
  }

  function DepsIn(fs: Folders): Deps {
    map n | n in Artifacts(fs) :: CreatedAfter(fs[n])
  }

  /** Statuses that can be tips; `None` means that no status is filtered. */
  function EligibleStatuses(t: ArtifactType): Option<set<string>> {
    match t
    case CHUNK => Some({"ACTIVE", "IMPLEMENTING", "EXTERNAL"})
    case NARRATIVE => Some({"ACTIVE"})
    case INVESTIGATION => None
    case SUBSYSTEM => None
  }

  function EligibleIn(t: ArtifactType, fs: Folders): set<string> {
    match EligibleStatuses(t)
    case None => Artifacts(fs)
    case Some(statuses) =>
      set n | n in Artifacts(fs) && StatusOf(fs[n]).Some? && StatusOf(fs[n]).value in statuses
  }

  predicate HasMainStatus(f: Folder, status: string) {
    f.main.Some? && f.main.value.status == Some(status)
  }

  predicate OnlyExternal(f: Folder) {
    f.main.None? && f.external.Some?
  }

  /** What counts for the frontier, read off the files: among chunks the external ones too, among narratives not. */
  lemma EligibleIff(fs: Folders, n: string)
    ensures n in EligibleIn(CHUNK, fs) <==>
              n in fs && (HasMainStatus(fs[n], "ACTIVE") || HasMainStatus(fs[n], "IMPLEMENTING")
                          || HasMainStatus(fs[n], "EXTERNAL") || OnlyExternal(fs[n]))
    ensures n in EligibleIn(NARRATIVE, fs) <==> n in fs && HasMainStatus(fs[n], "ACTIVE")
    ensures forall t :: t == INVESTIGATION || t == SUBSYSTEM ==>
              (n in EligibleIn(t, fs) <==> n in fs && (fs[n].main.Some? || fs[n].external.Some?))
  {
    assert |"EXTERNAL"| == 8 && |"ACTIVE"| == 6;
  }

  /** Where the parents are read: in the main document, and in `external.yaml` where there is no main document. */
  lemma ParentsIff(fs: Folders, n: string, parents: seq<string>)
    ensures n in DepsIn(fs) && DepsIn(fs)[n] == parents <==>
              && n in fs
              && ((fs[n].main.Some? && fs[n].main.value.createdAfter == parents)
                  || (OnlyExternal(fs[n]) && fs[n].external.value.createdAfter == parents))
  {
  }

  const VERSION := 3

  datatype TypeIndex = TypeIndex(ordered: seq<string>, tips: seq<string>, directories: set<string>, version: int)

  type Index = map<ArtifactType, TypeIndex>

  /** What a build from the files, with no cache at all, would give. */
  ghost function FreshBuild(t: ArtifactType, fs: Folders): TypeIndex {
    TypeIndex(Ordered(DepsIn(fs)), Tips(DepsIn(fs), EligibleIn(t, fs)), Artifacts(fs), VERSION)
  }

  lemma EmptyBuild(t: ArtifactType, fs: Folders)
    requires Artifacts(fs) == {}
    ensures FreshBuild(t, fs) == TypeIndex([], [], {}, VERSION)
  {
    var entry := FreshBuild(t, fs);
    OrderedIsCausal(DepsIn(fs));
    DistinctLength(entry.ordered);
    assert Elems(entry.ordered) == {};
    DistinctLength(entry.tips);
    assert Elems(entry.tips) == {};
  }

  predicate FileNewer(f: Option<File>, mtime: int) {
    f.Some? && f.value.mtime > mtime
  }

  /** The index has no usable entry for the type, or the directories changed, or a file is newer than the index. */
  predicate IsStale(index: Index, t: ArtifactType, fs: Folders, indexMtime: int) {
    || t !in index
    || index[t].version != VERSION
    || index[t].directories != Artifacts(fs)
    || exists n :: n in Artifacts(fs) && (FileNewer(fs[n].main, indexMtime) || FileNewer(fs[n].external, indexMtime))
  }

  // ----- objects: the project directory, and the index instances that share its index file -----

  class Project {
    var folders: map<ArtifactType, Folders>
    var indexFile: Option<Index>  // None: missing, or not readable as JSON
    var indexMtime: int  // 0 when missing

    function FoldersOf(t: ArtifactType): Folders
      reads this`folders
    {
      if t in folders then folders[t] else map[]
    }

    constructor ()
      ensures folders == map[] && indexFile == None && indexMtime == 0
    {
      folders, indexFile, indexMtime := map[], None, 0;
    }
  }

  function Loaded(cache: Option<Index>, file: Option<Index>): Index {
    if cache.Some? then cache.value else if file.Some? then file.value else map[]
  }

  ghost function Refreshed(index: Index, t: ArtifactType, fs: Folders, indexMtime: int): Index {
    if IsStale(index, t, fs, indexMtime) then index[t := FreshBuild(t, fs)] else index
  }

  class ArtifactIndex {
    const project: Project
    var cache: Option<Index>

    constructor (p: Project)
      ensures project == p && cache == None
    {
      project, cache := p, None;
    }

    /** The index file is read once, and an unreadable one counts as empty. */
    method LoadIndex()
      modifies this`cache
      ensures cache == Some(Loaded(old(cache), project.indexFile))
    {
      if cache.None? {
        cache := if project.indexFile.Some? then project.indexFile else Some(map[]);
      }
    }

    static method EnumerateArtifacts(fs: Folders) returns (artifacts: set<string>)
      ensures artifacts == Artifacts(fs)
    {
      artifacts := {};
      var rest := fs.Keys;
      while rest != {}
        invariant rest <= fs.Keys && artifacts <= fs.Keys
        invariant forall n :: n in fs ==> (n in artifacts <==> n !in rest && IsArtifact(fs[n]))
      {
        var name :| name in rest;
        if fs[name].main.Some? {
          artifacts := artifacts + {name};
        } else if fs[name].external.Some? {
          artifacts := artifacts + {name};
        }
        rest := rest - {name};
      }
    }

    /** The parents and the status of every artifact. */
    static method ReadArtifacts(fs: Folders, artifacts: set<string>)
      returns (deps: Deps, statuses: map<string, Option<string>>)
      requires artifacts == Artifacts(fs)
      ensures deps == DepsIn(fs)
      ensures statuses == map n | n in Artifacts(fs) :: StatusOf(fs[n])
    {
      deps, statuses := map[], map[];
      var rest := artifacts;
      while rest != {}
        invariant rest <= artifacts
        invariant deps.Keys == statuses.Keys == artifacts - rest
        invariant forall n :: n in deps ==> deps[n] == CreatedAfter(fs[n]) && statuses[n] == StatusOf(fs[n])
      {
        var name :| name in rest;
        if fs[name].main.Some? {
          deps := deps[name := fs[name].main.value.createdAfter];
          statuses := statuses[name := fs[name].main.value.status];
        } else {
          deps := deps[name := fs[name].external.value.createdAfter];
          statuses := statuses[name := Some("EXTERNAL")];
        }
        rest := rest - {name};
      }
    }

    method BuildIndexForType(t: ArtifactType) returns (entry: TypeIndex)
      ensures entry == FreshBuild(t, project.FoldersOf(t)) && entry.version == 3
    {
      var fs := project.FoldersOf(t);
      var artifacts := EnumerateArtifacts(fs);
      if artifacts == {} {
        EmptyBuild(t, fs);
        return TypeIndex([], [], {}, VERSION);
      }
      var deps, statuses := ReadArtifacts(fs, artifacts);
      var ordered := Sorter.Sort(deps);
      var eligible := match EligibleStatuses(t)
        case None => artifacts
        case Some(allowed) => set n | n in statuses && statuses[n].Some? && statuses[n].value in allowed;
      assert eligible == EligibleIn(t, fs);
      var tips := CollectTips(deps, eligible, ordered);
      entry := TypeIndex(ordered, tips, artifacts, VERSION);
    }

    method IsIndexStale(index: Index, t: ArtifactType) returns (stale: bool)
      ensures stale == IsStale(index, t, project.FoldersOf(t), project.indexMtime)
    {
      if t !in index {
        return true;
      }
      if index[t].version != VERSION {
        return true;
      }
      var fs := project.FoldersOf(t);
      var current := EnumerateArtifacts(fs);
      if index[t].directories != current {
        return true;
      }
      var rest := current;
      while rest != {}
        invariant rest <= current
        invariant forall n :: n in current - rest ==>
                    !FileNewer(fs[n].main, project.indexMtime) && !FileNewer(fs[n].external, project.indexMtime)
      {
        var name :| name in rest;
        if fs[name].main.Some? && fs[name].main.value.mtime > project.indexMtime {
          return true;
        }
        if fs[name].external.Some? && fs[name].external.value.mtime > project.indexMtime {
          return true;
        }
        rest := rest - {name};
      }
      stale := false;
    }

    /** Loads the index at most once, rebuilds the type's entry if it is stale, and saves the whole index then. */
    method EnsureIndexFresh(t: ArtifactType, now: int) returns (entry: TypeIndex)
      modifies this`cache, project`indexFile, project`indexMtime
      ensures cache == Some(Refreshed(Loaded(old(cache), old(project.indexFile)), t,
                                      project.FoldersOf(t), old(project.indexMtime)))
      ensures t in cache.value && entry == cache.value[t]
      ensures var stale := IsStale(Loaded(old(cache), old(project.indexFile)), t,
                                   project.FoldersOf(t), old(project.indexMtime));
              && project.indexFile == (if stale then cache else old(project.indexFile))
              && project.indexMtime == if stale then now else old(project.indexMtime)
    {
      LoadIndex();
      var stale := IsIndexStale(cache.value, t);
      if stale {
        entry := BuildIndexForType(t);
        cache := Some(cache.value[t := entry]);
        project.indexFile := cache;
        project.indexMtime := now;
      }
      entry := cache.value[t];
    }

    method Rebuild(t: ArtifactType, now: int)
      modifies this`cache, project`indexFile, project`indexMtime
      ensures cache == Some(Loaded(old(cache), old(project.indexFile))[t := FreshBuild(t, project.FoldersOf(t))])
      ensures project.indexFile == cache && project.indexMtime == now
    {
      LoadIndex();
      var entry := BuildIndexForType(t);
      cache := Some(cache.value[t := entry]);
      project.indexFile := cache;
      project.indexMtime := now;
    }
  }

  // ----- every interleaving -----

  /** The files and the in-memory caches of all the index instances. */
  datatype World = World(folders: map<ArtifactType, Folders>, indexFile: Option<Index>, indexMtime: int,
                         caches: map<nat, Option<Index>>)

  function FoldersIn(w: World, t: ArtifactType): Folders {
    if t in w.folders then w.folders[t] else map[]
  }

  datatype Action =
    | Start(id: nat)  // a new instance
    | Query(id: nat, t: ArtifactType, now: int)  // get_ordered or find_tips
    | ForceRebuild(id: nat, t: ArtifactType, now: int)
    | ChangeFolders(t: ArtifactType, folders: Folders)  // directories and files appear, disappear or are edited
    | LoseIndexFile

  /** Parent lists are fixed per type and name: the documented immutability of created_after. */
  type History = (ArtifactType, string) -> seq<string>

  predicate Respects(h: History, t: ArtifactType, fs: Folders) {
    forall n :: n in fs && IsArtifact(fs[n]) ==> CreatedAfter(fs[n]) == h(t, n)
  }

  /** The index that an instance works on when it answers. */
  function WorkingIndex(w: World, id: nat): Index {
    Loaded(if id in w.caches then w.caches[id] else None, w.indexFile)
  }

  ghost function AnswerIndex(w: World, id: nat, t: ArtifactType): Index {
    Refreshed(WorkingIndex(w, id), t, FoldersIn(w, t), w.indexMtime)
  }

  ghost predicate Step(h: History, w: World, a: Action, w': World) {
    match a
    case Start(id) => w' == w.(caches := w.caches[id := None])
    case Query(id, t, now) =>
      var index := AnswerIndex(w, id, t);
      var stale := IsStale(WorkingIndex(w, id), t, FoldersIn(w, t), w.indexMtime);
      id in w.caches
      && w' == w.(caches := w.caches[id := Some(index)],
                  indexFile := if stale then Some(index) else w.indexFile,
                  indexMtime := if stale then now else w.indexMtime)
    case ForceRebuild(id, t, now) =>
      var index := WorkingIndex(w, id)[t := FreshBuild(t, FoldersIn(w, t))];
      id in w.caches
      && w' == w.(caches := w.caches[id := Some(index)], indexFile := Some(index), indexMtime := now)
    case ChangeFolders(t, fs) => Respects(h, t, fs) && w' == w.(folders := w.folders[t := fs])
    case LoseIndexFile => w' == w.(indexFile := None, indexMtime := 0)
  }

  ghost predicate Run(h: History, ws: seq<World>, acts: seq<Action>) {
    && |ws| == |acts| + 1
    && ws[0] == World(map[], None, 0, map[])
    && forall i :: 0 <= i < |acts| ==> Step(h, ws[i], acts[i], ws[i+1])
  }

  /** The dependency map of a directory set under fixed parent lists. */
  function HistoryDeps(h: History, t: ArtifactType, directories: set<string>): Deps {
    map n | n in directories :: h(t, n)
  }

  /** Every entry of the current version stores the order of its own directory set. */
  ghost predicate Coherent(h: History, index: Index) {
    forall t :: t in index ==> CoherentEntry(h, t, index[t])
  }

  ghost predicate CoherentEntry(h: History, t: ArtifactType, e: TypeIndex) {
    e.version == VERSION ==> e.ordered == Ordered(HistoryDeps(h, t, e.directories))
  }

  ghost predicate AllCoherent(h: History, w: World) {
    && (w.indexFile.Some? ==> Coherent(h, w.indexFile.value))
    && (forall id :: id in w.caches && w.caches[id].Some? ==> Coherent(h, w.caches[id].value))
    && (forall t :: t in w.folders ==> Respects(h, t, w.folders[t]))
  }

  lemma BuildIsCoherent(h: History, index: Index, t: ArtifactType, fs: Folders)
    requires Coherent(h, index) && Respects(h, t, fs)
    ensures Coherent(h, index[t := FreshBuild(t, fs)])
  {
    assert DepsIn(fs) == HistoryDeps(h, t, Artifacts(fs));
    assert CoherentEntry(h, t, FreshBuild(t, fs));
    forall u | u in index && u != t ensures CoherentEntry(h, u, index[u]) {
    }
  }

  lemma {:induction false} StepKeepsCoherence(h: History, w: World, a: Action, w': World)
    requires AllCoherent(h, w) && Step(h, w, a, w')
    ensures AllCoherent(h, w')
  {
    if a.Query? || a.ForceRebuild? {
      assert Coherent(h, WorkingIndex(w, a.id));
      assert Respects(h, a.t, FoldersIn(w, a.t));
      BuildIsCoherent(h, WorkingIndex(w, a.id), a.t, FoldersIn(w, a.t));
    }
  }

  lemma {:induction false} RunKeepsCoherence(h: History, ws: seq<World>, acts: seq<Action>, k: nat)
    requires Run(h, ws, acts) && k < |ws|
    ensures AllCoherent(h, ws[k])
  {
    var coherent: World -> bool := w => AllCoherent(h, w);
    StartIsCoherent(h, ws[0]);
    forall i | 0 < i < |ws| && coherent(ws[i-1]) ensures coherent(ws[i]) {
      StepOfRun(h, ws, acts, i);
    }
    HoldsThroughout(ws, coherent, k);
  }

  /** What holds in the first state and is kept by every step holds in every state. */
  lemma {:induction false} HoldsThroughout<T>(ws: seq<T>, p: T -> bool, k: nat)
    requires k < |ws| && p(ws[0]) && forall i :: 0 < i < |ws| && p(ws[i-1]) ==> p(ws[i])
    ensures p(ws[k])
  {
    if k > 0 { HoldsThroughout(ws, p, k - 1); }
  }

  lemma StartIsCoherent(h: History, w: World)
    requires w == World(map[], None, 0, map[])
    ensures AllCoherent(h, w)
  {
  }

  lemma StepOfRun(h: History, ws: seq<World>, acts: seq<Action>, i: nat)
    requires Run(h, ws, acts) && 0 < i < |ws| && AllCoherent(h, ws[i-1])
    ensures AllCoherent(h, ws[i])
  {
    assert Step(h, ws[i-1], acts[i-1], ws[i-1+1]);
    StepKeepsCoherence(h, ws[i-1], acts[i-1], ws[i]);
  }

  /** In every interleaving, a query's order is the one that a fresh build of the files of that moment gives. */
  lemma {:induction false} QueriesAgreeWithFreshBuild(h: History, ws: seq<World>, acts: seq<Action>, k: nat)
    requires Run(h, ws, acts) && k < |acts| && acts[k].Query?
    ensures var t, index := acts[k].t, AnswerIndex(ws[k], acts[k].id, acts[k].t);
            t in index && index[t].ordered == FreshBuild(t, FoldersIn(ws[k], t)).ordered
  {
    RunKeepsCoherence(h, ws, acts, k);
    var w, id, t := ws[k], acts[k].id, acts[k].t;
    var fs := FoldersIn(w, t);
    assert Step(h, ws[k], acts[k], ws[k+1]);
    assert Respects(h, t, fs);
    assert DepsIn(fs) == HistoryDeps(h, t, Artifacts(fs));
    assert Coherent(h, WorkingIndex(w, id));
  }
}
