/** The chunk lifecycle, and the current-chunk guard. */
module ChunkLifecycle {
  import opened Names
  import opened CausalOrder
  import opened Frontier
  import opened ArtifactIndexing
  import opened Options

  const STATUSES := {"FUTURE", "IMPLEMENTING", "ACTIVE", "COMPOSITE", "SUPERSEDED", "HISTORICAL"}

  /** The status that frontmatter validation accepts. */
  function ParsedStatus(f: Folder): Option<string> {
    if f.main.Some? && f.main.value.status.Some? && f.main.value.status.value in STATUSES
    then f.main.value.status else None
  }

  predicate HasStatus(fs: Folders, n: string, status: string) {
    n in fs && ParsedStatus(fs[n]) == Some(status)
  }

  predicate Implementing(fs: Folders, n: string) {
    HasStatus(fs, n, "IMPLEMENTING")
  }

  /** Newest first: the last IMPLEMENTING chunk of the causal order. */
  ghost function LastImplementing(fs: Folders, ordered: seq<string>): (r: Option<string>)
    ensures r.None? <==> forall n :: n in ordered ==> !Implementing(fs, n)
    ensures r.Some? ==> r.value in ordered && Implementing(fs, r.value)
  {
    if ordered == [] then None
    else if Implementing(fs, ordered[|ordered|-1]) then Some(ordered[|ordered|-1])
    else
      assert ordered == ordered[..|ordered|-1] + [ordered[|ordered|-1]];
      LastImplementing(fs, ordered[..|ordered|-1])
  }

  ghost function Current(fs: Folders): Option<string> {
    LastImplementing(fs, Ordered(DepsIn(fs)))
  }

  function SetStatus(fs: Folders, n: string, status: string, now: int): Folders
    requires n in fs && fs[n].main.Some?
  {
    fs[n := fs[n].(main := Some(fs[n].main.value.(status := Some(status), mtime := now)))]
  }

  function Transitions(status: string): set<string> {
    if status == "FUTURE" then {"IMPLEMENTING", "HISTORICAL"}
    else if status == "IMPLEMENTING" then {"ACTIVE", "COMPOSITE", "HISTORICAL"}
    else if status == "ACTIVE" then {"SUPERSEDED", "COMPOSITE", "HISTORICAL"}
    else if status == "COMPOSITE" then {"ACTIVE", "HISTORICAL"}
    else if status == "SUPERSEDED" then {"HISTORICAL"}
    else {}
  }

  /** The six statuses, and where they are read: an external chunk has none. */
  lemma HasStatusIff(fs: Folders, n: string, status: string)
    ensures HasStatus(fs, n, status) <==>
              && n in fs && fs[n].main.Some? && fs[n].main.value.status == Some(status)
              && (status == "FUTURE" || status == "IMPLEMENTING" || status == "ACTIVE" || status == "COMPOSITE"
                  || status == "SUPERSEDED" || status == "HISTORICAL")
  {
  }

  predicate NotHistorical(status: string) {
    status == "FUTURE" || status == "IMPLEMENTING" || status == "ACTIVE" || status == "COMPOSITE"
    || status == "SUPERSEDED"
  }

  /** The transition table read backwards: where each status can be reached from. Nothing leaves HISTORICAL, every
      other status may become HISTORICAL, and only a FUTURE chunk is started. */
  lemma TransitionIff(from: string, to: string)
    ensures to in Transitions(from) <==>
              || (to == "IMPLEMENTING" && from == "FUTURE")
              || (to == "ACTIVE" && (from == "IMPLEMENTING" || from == "COMPOSITE"))
              || (to == "COMPOSITE" && (from == "IMPLEMENTING" || from == "ACTIVE"))
              || (to == "SUPERSEDED" && from == "ACTIVE")
              || (to == "HISTORICAL" && NotHistorical(from))
  {
    StatusLengths();
  }

  lemma StatusLengths()
    ensures |"FUTURE"| == 6 && |"IMPLEMENTING"| == 12 && |"ACTIVE"| == 6 && |"COMPOSITE"| == 9
    ensures |"SUPERSEDED"| == 10 && |"HISTORICAL"| == 10
    ensures "FUTURE"[0] == 'F' && "ACTIVE"[0] == 'A' && "SUPERSEDED"[0] == 'S' && "HISTORICAL"[0] == 'H'
  {
  }

  /** One main document gets a new status and time, and keeps its parents; every other file stays. */
  ghost predicate OnlyStatusChanges(fs: Folders, fs': Folders, n: string, status: string, now: int) {
    && fs'.Keys == fs.Keys && n in fs
    && (forall m :: m in fs && m != n ==> fs'[m] == fs[m])
    && fs'[n].external == fs[n].external
    && fs[n].main.Some? && fs'[n].main.Some?
    && fs'[n].main.value.createdAfter == fs[n].main.value.createdAfter
    && fs'[n].main.value.status == Some(status) && fs'[n].main.value.mtime == now
  }

  lemma SetStatusIff(fs: Folders, fs': Folders, n: string, status: string, now: int)
    requires n in fs && fs[n].main.Some?
    ensures fs' == SetStatus(fs, n, status, now) <==> OnlyStatusChanges(fs, fs', n, status, now)
  {
    if OnlyStatusChanges(fs, fs', n, status, now) {
      assert fs'[n] == SetStatus(fs, n, status, now)[n];
      forall m | m in fs ensures fs'[m] == SetStatus(fs, n, status, now)[m] {
      }
    }
  }

  // ----- the steps on the stored chunks -----

  function NewChunk(parents: seq<string>, status: string, now: int): Folder {
    Folder(Some(File(parents, Some(status), now)), None)
  }

  ghost predicate Creates(fs: Folders, fs': Folders, n: string, parents: seq<string>, status: string, now: int) {
    && n !in fs
    && (status != "FUTURE" ==> Current(fs) == None)
    && (forall p :: p in parents ==> p in Artifacts(fs))
    && fs' == fs[n := NewChunk(parents, status, now)]
  }

  ghost predicate Activates(fs: Folders, fs': Folders, n: string, now: int) {
    Current(fs) == None && HasStatus(fs, n, "FUTURE") && fs' == SetStatus(fs, n, "IMPLEMENTING", now)
  }

  ghost predicate Completes(fs: Folders, fs': Folders, n: string, now: int) {
    n in fs && fs[n].main.Some? && fs' == SetStatus(fs, n, "ACTIVE", now)
  }

  /** `update_status`: the transition table, and no guard. */
  ghost predicate Updates(fs: Folders, fs': Folders, n: string, status: string, now: int) {
    n in fs && ParsedStatus(fs[n]).Some? && status in Transitions(ParsedStatus(fs[n]).value)
    && fs' == SetStatus(fs, n, status, now)
  }

  datatype ChunkStep =
    | Create(name: string, parents: seq<string>, status: string, now: int)
    | Activate(name: string, now: int)
    | Complete(name: string, now: int)
    | Update(name: string, status: string, now: int)

  ghost predicate Steps(fs: Folders, s: ChunkStep, fs': Folders) {
    match s
    case Create(n, parents, status, now) => Creates(fs, fs', n, parents, status, now)
    case Activate(n, now) => Activates(fs, fs', n, now)
    case Complete(n, now) => Completes(fs, fs', n, now)
    case Update(n, status, now) => Updates(fs, fs', n, status, now)
  }

  // ----- the invariant of every run -----

  ghost predicate ParentsExist(fs: Folders) {
    forall n, p :: n in Artifacts(fs) && p in DepsIn(fs)[n] ==> p in Artifacts(fs)
  }

  ghost predicate OneImplementing(fs: Folders) {
    forall a, b :: Implementing(fs, a) && Implementing(fs, b) ==> a == b
  }

  ghost predicate Sound(fs: Folders) {
    Acyclic(DepsIn(fs)) && ParentsExist(fs) && OneImplementing(fs)
  }

  /** The guard sees every chunk that the sort does not leave out, and no other. */
  lemma GuardSeesUnblocked(fs: Folders)
    ensures Current(fs) == None <==> forall n :: Implementing(fs, n) ==> Blocked(DepsIn(fs), n)
  {
    OrderedIsCausal(DepsIn(fs));
    forall n | Implementing(fs, n)
      ensures n in Ordered(DepsIn(fs)) <==> !Blocked(DepsIn(fs), n)
    {
      OrderedIsComplete(DepsIn(fs), n);
    }
  }

  /** In a sound project the listing holds every chunk, and the guard finds the IMPLEMENTING one if there is one. */
  lemma SoundGuardIsExact(fs: Folders)
    requires Sound(fs)
    ensures forall n :: n in Ordered(DepsIn(fs)) <==> n in Artifacts(fs)
    ensures Current(fs) == None <==> forall n :: !Implementing(fs, n)
    ensures forall n :: Implementing(fs, n) ==> Current(fs) == Some(n)
  {
    AcyclicListsAll(DepsIn(fs));
  }

  lemma NewArtifactGraph(fs: Folders, n: string, parents: seq<string>, status: string, now: int)
    requires ParentsExist(fs) && n !in fs && forall p :: p in parents ==> p in Artifacts(fs)
    ensures var fs' := fs[n := NewChunk(parents, status, now)];
            && DepsIn(fs') == DepsIn(fs)[n := parents] && Artifacts(fs') == Artifacts(fs) + {n}
            && Appended(DepsIn(fs), DepsIn(fs'), n)
            && ParentsExist(fs')
  {
  }

  lemma AppendedKeepsAcyclic(deps: Deps, deps': Deps, n: string)
    requires Acyclic(deps) && Appended(deps, deps', n)
    ensures Acyclic(deps')
  {
    AcyclicListsAll(deps);
    CreationKeepsOrder(deps, deps', n);
    forall x | x in deps ensures x in Ordered(deps') {
      assert x in Without(Ordered(deps'), n);
    }
    OrderedIsFixpoint(deps', n);
    ListsAllIsAcyclic(deps');
  }

  lemma StatusKeepsGraph(fs: Folders, n: string, status: string, now: int)
    requires n in fs && fs[n].main.Some?
    ensures DepsIn(SetStatus(fs, n, status, now)) == DepsIn(fs)
    ensures ParentsExist(fs) ==> ParentsExist(SetStatus(fs, n, status, now))
  {
    assert Artifacts(SetStatus(fs, n, status, now)) == Artifacts(fs);
  }

  lemma StatusEffect(fs: Folders, n: string, status: string, now: int)
    requires n in fs && fs[n].main.Some?
    ensures forall x :: Implementing(SetStatus(fs, n, status, now), x) <==>
              if x == n then status == "IMPLEMENTING" else Implementing(fs, x)
  {
  }

  lemma NewChunkEffect(fs: Folders, n: string, parents: seq<string>, status: string, now: int)
    requires n !in fs
    ensures forall x :: Implementing(fs[n := NewChunk(parents, status, now)], x) <==>
              if x == n then status == "IMPLEMENTING" else Implementing(fs, x)
  {
    var fs' := fs[n := NewChunk(parents, status, now)];
    forall x ensures Implementing(fs', x) <==> if x == n then status == "IMPLEMENTING" else Implementing(fs, x) {
      if x != n {
        assert x in fs' <==> x in fs;
        assert x in fs ==> fs'[x] == fs[x];
      } else {
        assert fs'[n] == NewChunk(parents, status, now);
        assert Implementing(fs', n) ==> status == "IMPLEMENTING";
        assert status == "IMPLEMENTING" ==> Implementing(fs', n);
      }
    }
  }

  lemma StatusNamesDiffer()
    ensures "FUTURE" != "IMPLEMENTING" && "ACTIVE" != "IMPLEMENTING"
  {
    assert |"FUTURE"| == 6 && |"ACTIVE"| == 6 && |"IMPLEMENTING"| == 12;
  }

  /** What every step does to the set of IMPLEMENTING chunks: at most `n` joins it. */
  lemma OneStaysOne(fs: Folders, fs': Folders, n: string, starts: bool)
    requires Sound(fs) && (starts ==> Current(fs) == None)
    requires forall x :: Implementing(fs', x) <==> if x == n then starts else Implementing(fs, x)
    ensures OneImplementing(fs')
  {
    SoundGuardIsExact(fs);
  }

  lemma CreateKeepsSound(fs: Folders, fs': Folders, n: string, parents: seq<string>, status: string, now: int)
    requires Sound(fs) && Creates(fs, fs', n, parents, status, now)
    ensures Sound(fs')
  {
    NewArtifactGraph(fs, n, parents, status, now);
    AppendedKeepsAcyclic(DepsIn(fs), DepsIn(fs'), n);
    NewChunkEffect(fs, n, parents, status, now);
    StatusNamesDiffer();
    OneStaysOne(fs, fs', n, status == "IMPLEMENTING");
  }

  lemma StatusChangeKeepsSound(fs: Folders, n: string, status: string, now: int)
    requires Sound(fs) && n in fs && fs[n].main.Some?
    requires status == "IMPLEMENTING" ==> Current(fs) == None
    ensures Sound(SetStatus(fs, n, status, now))
  {
    StatusKeepsGraph(fs, n, status, now);
    StatusEffect(fs, n, status, now);
    OneStaysOne(fs, SetStatus(fs, n, status, now), n, status == "IMPLEMENTING");
  }

  lemma {:induction false} StepKeepsSound(fs: Folders, s: ChunkStep, fs': Folders)
    requires Sound(fs) && Steps(fs, s, fs') && !s.Update?
    ensures Sound(fs')
  {
    StatusNamesDiffer();
    match s
    case Create(n, parents, status, now) => CreateKeepsSound(fs, fs', n, parents, status, now);
    case Activate(n, now) => StatusChangeKeepsSound(fs, n, "IMPLEMENTING", now);
    case Complete(n, now) => StatusChangeKeepsSound(fs, n, "ACTIVE", now);
  }

  lemma StartsOnlyFuture(status: string, next: string)
    requires next in Transitions(status) && next == "IMPLEMENTING"
    ensures status != "IMPLEMENTING"
  {
    assert |"ACTIVE"| == 6 && |"COMPOSITE"| == 9 && |"HISTORICAL"| == 10 && |"IMPLEMENTING"| == 12;
  }

  /** `update_status` keeps at most one IMPLEMENTING chunk exactly when it does not start one beside another. */
  lemma {:induction false} UpdateKeepsSoundIff(fs: Folders, s: ChunkStep, fs': Folders)
    requires Sound(fs) && Steps(fs, s, fs') && s.Update?
    ensures Sound(fs') <==> s.status != "IMPLEMENTING" || Current(fs) == None
  {
    StatusEffect(fs, s.name, s.status, s.now);
    if s.status == "IMPLEMENTING" && Current(fs).Some? {
      StartsOnlyFuture(ParsedStatus(fs[s.name]).value, s.status);
      assert Implementing(fs', s.name) && !Implementing(fs, s.name);
      assert Implementing(fs', Current(fs).value);
    } else {
      StatusChangeKeepsSound(fs, s.name, s.status, s.now);
    }
  }

  /** Starting any FUTURE chunk that way while another is IMPLEMENTING is allowed, and leaves two. */
  lemma {:induction false} SecondIsStarted(fs: Folders, n: string, now: int)
    requires Sound(fs) && Current(fs).Some? && HasStatus(fs, n, "FUTURE")
    ensures Updates(fs, SetStatus(fs, n, "IMPLEMENTING", now), n, "IMPLEMENTING", now)
    ensures !Sound(SetStatus(fs, n, "IMPLEMENTING", now))
  {
    assert "IMPLEMENTING" in Transitions("FUTURE");
    UpdateKeepsSoundIff(fs, Update(n, "IMPLEMENTING", now), SetStatus(fs, n, "IMPLEMENTING", now));
  }

  ghost predicate LifecycleRun(states: seq<Folders>, steps: seq<ChunkStep>) {
    && |states| == |steps| + 1 && states[0] == map[]
    && forall i :: 0 <= i < |steps| ==> Steps(states[i], steps[i], states[i+1])
  }

  /** Every run of create, activate and complete from an empty project keeps the history acyclic and at most one
      chunk IMPLEMENTING. */
  lemma {:induction false} RunsAreSound(states: seq<Folders>, steps: seq<ChunkStep>, k: nat)
    requires LifecycleRun(states, steps) && k < |states|
    requires forall i :: 0 <= i < |steps| ==> !steps[i].Update?
    ensures Sound(states[k])
  {
    if k > 0 {
      RunsAreSound(states, steps, k - 1);
      assert Steps(states[k-1], steps[k-1], states[k-1+1]);
      StepKeepsSound(states[k-1], steps[k-1], states[k]);
    } else {
      assert Artifacts(map[]) == {};
    }
  }

  /** With `update_status` among the operations, three steps from an empty project are enough to lose it. */
  lemma {:induction false} UpdateBreaksARun(a: string, b: string) returns (states: seq<Folders>, steps: seq<ChunkStep>)
    requires a != b
    ensures LifecycleRun(states, steps) && |steps| == 3 && steps[2] == Update(b, "IMPLEMENTING", 3)
    ensures Sound(states[2]) && !OneImplementing(states[3])
  {
    var fs0: Folders := map[];
    var fs1 := fs0[a := NewChunk([], "IMPLEMENTING", 1)];
    var fs2 := fs1[b := NewChunk([a], "FUTURE", 2)];
    var fs3;
    fs3 := TwoStarted(a, b, fs1, fs2);
    states, steps := [fs0, fs1, fs2, fs3],
      [Create(a, [], "IMPLEMENTING", 1), Create(b, [a], "FUTURE", 2), Update(b, "IMPLEMENTING", 3)];
    FirstCreation(a);
  }

  lemma FirstCreation(a: string)
    ensures Creates(map[], map[a := NewChunk([], "IMPLEMENTING", 1)], a, [], "IMPLEMENTING", 1)
    ensures Sound(map[a := NewChunk([], "IMPLEMENTING", 1)])
  {
    var fs: Folders := map[];
    assert Artifacts(fs) == {};
    var fs' := fs[a := NewChunk([], "IMPLEMENTING", 1)];
    assert fs' == map[a := NewChunk([], "IMPLEMENTING", 1)];
    CreateKeepsSound(fs, fs', a, [], "IMPLEMENTING", 1);
  }

  lemma TwoStarted(a: string, b: string, fs1: Folders, fs2: Folders) returns (fs3: Folders)
    requires a != b && fs1 == map[a := NewChunk([], "IMPLEMENTING", 1)] && fs2 == fs1[b := NewChunk([a], "FUTURE", 2)]
    ensures Creates(fs1, fs2, b, [a], "FUTURE", 2) && Sound(fs2)
    ensures Updates(fs2, fs3, b, "IMPLEMENTING", 3) && !OneImplementing(fs3)
  {
    FirstCreation(a);
    assert a in Artifacts(fs1);
    CreateKeepsSound(fs1, fs2, b, [a], "FUTURE", 2);
    assert Implementing(fs2, a);
    SoundGuardIsExact(fs2);
    fs3 := SetStatus(fs2, b, "IMPLEMENTING", 3);
    assert "IMPLEMENTING" in Transitions("FUTURE");
    StatusEffect(fs2, b, "IMPLEMENTING", 3);
    assert Implementing(fs3, a) && Implementing(fs3, b);
  }

  // ----- creation and the frontier -----

  /** Chunks of this status can be tips. */
  predicate CountsForTips(status: string) {
    status in EligibleStatuses(CHUNK).value
  }

  lemma EligibleAfterCreation(fs: Folders, n: string, parents: seq<string>, status: string, now: int)
    requires n !in fs
    ensures EligibleIn(CHUNK, fs[n := NewChunk(parents, status, now)]) ==
            if CountsForTips(status) then EligibleIn(CHUNK, fs) + {n} else EligibleIn(CHUNK, fs)
  {
    var fs' := fs[n := NewChunk(parents, status, now)];
    assert Artifacts(fs') == Artifacts(fs) + {n};
    assert StatusOf(fs'[n]) == Some(status);
  }

  /** What a creation does to the frontier, the parents being whatever the index answered: a chunk whose status counts
      for tips becomes the only tip exactly when the parents hold every tip; any other leaves the tips alone. */
  ghost predicate MovesFrontier(fs: Folders, fs': Folders, n: string, parents: seq<string>, counts: bool) {
    var tips, tips' := FreshBuild(CHUNK, fs).tips, FreshBuild(CHUNK, fs').tips;
    if counts then tips' == [n] <==> forall x :: x in tips ==> x in parents
    else forall x :: x in tips' <==> x in tips
  }

  lemma {:induction false} CreationMovesFrontier(fs: Folders, n: string, parents: seq<string>, status: string, now: int)
    requires Sound(fs) && n !in fs && forall p :: p in parents ==> p in Artifacts(fs)
    ensures MovesFrontier(fs, fs[n := NewChunk(parents, status, now)], n, parents, CountsForTips(status))
  {
    NewArtifactGraph(fs, n, parents, status, now);
    NoWayBack(fs, n, parents);
    EligibleAfterCreation(fs, n, parents, status, now);
    FrontierMoves(DepsIn(fs), EligibleIn(CHUNK, fs), n, parents, CountsForTips(status));
  }

  lemma NoWayBack(fs: Folders, n: string, parents: seq<string>)
    requires ParentsExist(fs) && n !in fs && forall p :: p in parents ==> p in Artifacts(fs)
    ensures !ClosesCycle(DepsIn(fs), n, parents)
  {
    forall p | p in parents ensures !LeadsBack(DepsIn(fs), n, p) {
      assert forall m :: m in DepsIn(fs) && n in DepsIn(fs)[m] ==> n in Artifacts(fs);
    }
  }

  /** In a sound project, a creation on the frontier of a fresh build makes the new chunk the only tip. */
  lemma {:induction false} FreshFrontierMoves(fs: Folders, n: string, status: string, now: int)
    requires Sound(fs) && n !in fs && CountsForTips(status)
    ensures FreshBuild(CHUNK, fs[n := NewChunk(FreshBuild(CHUNK, fs).tips, status, now)]).tips == [n]
  {
    OrderedIsCausal(DepsIn(fs));
    CreationMovesFrontier(fs, n, FreshBuild(CHUNK, fs).tips, status, now);
  }

  // ----- the manager object -----

  datatype Reply =
    | Done(name: string)
    | Duplicate
    | Busy(current: string)
    | NotFound
    | Unreadable
    | NotFuture
    | BadTransition

  function Reverse(q: seq<string>): seq<string> {
    if q == [] then [] else [q[|q|-1]] + Reverse(q[..|q|-1])
  }

  ghost function FirstImplementing(fs: Folders, q: seq<string>): Option<string> {
    if q == [] then None
    else if Implementing(fs, q[0]) then Some(q[0])
    else FirstImplementing(fs, q[1..])
  }

  lemma {:induction false} ReverseIsBackwards(q: seq<string>)
    ensures |Reverse(q)| == |q| && forall k :: 0 <= k < |q| ==> Reverse(q)[k] == q[|q|-1-k]
  {
    if q != [] { ReverseIsBackwards(q[..|q|-1]); }
  }

  lemma {:induction false} FirstOfReverse(fs: Folders, q: seq<string>)
    ensures FirstImplementing(fs, Reverse(q)) == LastImplementing(fs, q)
  {
    if q != [] {
      FirstOfReverse(fs, q[..|q|-1]);
      assert Reverse(q)[1..] == Reverse(q[..|q|-1]);
    }
  }

  function Part(deps: Deps, names: set<string>): Deps {
    map n | n in names && n in deps :: deps[n]
  }

  /** A chunk entry orders some of the chunks that exist now, by their parent lists of now. */
  ghost predicate EntryGood(fs: Folders, entry: TypeIndex) {
    && entry.directories <= Artifacts(fs)
    && entry.ordered == Ordered(Part(DepsIn(fs), entry.directories))
    && forall x :: x in entry.tips ==> x in entry.directories
  }

  ghost predicate IndexGood(fs: Folders, index: Option<Index>) {
    index.Some? && CHUNK in index.value && index.value[CHUNK].version == VERSION ==>
      EntryGood(fs, index.value[CHUNK])
  }

  lemma FreshIsGood(fs: Folders)
    ensures EntryGood(fs, FreshBuild(CHUNK, fs))
  {
    assert Part(DepsIn(fs), Artifacts(fs)) == DepsIn(fs);
    OrderedIsCausal(DepsIn(fs));
  }

  lemma GoodEntryOfNow(fs: Folders, entry: TypeIndex)
    requires EntryGood(fs, entry) && entry.directories == Artifacts(fs)
    ensures entry.ordered == Ordered(DepsIn(fs))
  {
    assert Part(DepsIn(fs), Artifacts(fs)) == DepsIn(fs);
  }

  lemma GrowthKeepsIndexGood(fs: Folders, fs': Folders, index: Option<Index>)
    requires IndexGood(fs, index)
    requires forall n :: n in DepsIn(fs) ==> n in DepsIn(fs') && DepsIn(fs')[n] == DepsIn(fs)[n]
    ensures IndexGood(fs', index)
  {
    if index.Some? && CHUNK in index.value && index.value[CHUNK].version == VERSION {
      var dirs := index.value[CHUNK].directories;
      assert Artifacts(fs) == DepsIn(fs).Keys && Artifacts(fs') == DepsIn(fs').Keys;
      assert Part(DepsIn(fs'), dirs) == Part(DepsIn(fs), dirs);
    }
  }

  class Chunks {
    const index: ArtifactIndex

    /** No stored chunk entry names a chunk that is gone, or a parent list other than the present one. */
    ghost predicate Valid()
      reads this, index, index.project
    {
      var fs := index.project.FoldersOf(CHUNK);
      IndexGood(fs, index.cache) && IndexGood(fs, index.project.indexFile)
    }

    constructor (i: ArtifactIndex)
      ensures index == i
      ensures i.cache == None && i.project.indexFile == None ==> Valid()
    {
      index := i;
    }

    ghost function Stored(): Folders
      reads this, index, index.project
    {
      index.project.FoldersOf(CHUNK)
    }

    /** The entry that the index answers with now: the stored one, or a fresh build if that is stale. */
    ghost function Answer(): TypeIndex
      reads this, index, index.project
    {
      var known := Loaded(index.cache, index.project.indexFile);
      if IsStale(known, CHUNK, Stored(), index.project.indexMtime) then FreshBuild(CHUNK, Stored()) else known[CHUNK]
    }

    method FreshEntry(now: int) returns (entry: TypeIndex)
      requires Valid()
      modifies index`cache, index.project`indexFile, index.project`indexMtime
      ensures Valid() && Answer() == old(Answer()) == entry
      ensures entry.ordered == Ordered(DepsIn(Stored()))
      ensures forall x :: x in entry.tips ==> x in Artifacts(Stored())
    {
      ghost var before := Loaded(index.cache, index.project.indexFile);
      FreshIsGood(Stored());
      entry := index.EnsureIndexFresh(CHUNK, now);
      assert EntryGood(Stored(), entry);
      assert entry.directories == Artifacts(Stored());
      GoodEntryOfNow(Stored(), entry);
    }

    method ListChunks(now: int) returns (names: seq<string>)
      requires Valid()
      modifies index`cache, index.project`indexFile, index.project`indexMtime
      ensures Valid() && Answer() == old(Answer()) && names == Reverse(Ordered(DepsIn(Stored())))
      ensures var order := Ordered(DepsIn(Stored()));
              |names| == |order| && forall k :: 0 <= k < |names| ==> names[k] == order[|order|-1-k]
    {
      var entry := FreshEntry(now);
      names := Reverse(entry.ordered);
      ReverseIsBackwards(entry.ordered);
    }

    method GetCurrentChunk(now: int) returns (current: Option<string>)
      requires Valid()
      modifies index`cache, index.project`indexFile, index.project`indexMtime
      ensures Valid() && Answer() == old(Answer()) && current == Current(Stored())
    {
      var names := ListChunks(now);
      FirstOfReverse(Stored(), Ordered(DepsIn(Stored())));
      current := FindImplementing(index.project.FoldersOf(CHUNK), names);
    }

    static method FindImplementing(fs: Folders, names: seq<string>) returns (current: Option<string>)
      ensures current == FirstImplementing(fs, names)
    {
      for k := 0 to |names|
        invariant FirstImplementing(fs, names[k..]) == FirstImplementing(fs, names)
      {
        assert names[k..][1..] == names[k+1..];
        if Implementing(fs, names[k]) {
          return Some(names[k]);
        }
      }
      current := None;
    }

    method CreateChunk(shortName: string, status: string, now: int) returns (reply: Reply)
      requires Valid()
      modifies index`cache, index.project
      ensures Valid()
      ensures reply.Done? ==> Creates(old(Stored()), Stored(), shortName, old(Answer()).tips, status, now)
      ensures reply.Done? ==>
                Stored() == old(Stored())[shortName := Folder(Some(File(old(Answer()).tips, Some(status), now)), None)]
      ensures reply.Done? && Sound(old(Stored())) ==>
                MovesFrontier(old(Stored()), Stored(), shortName, old(Answer()).tips, CountsForTips(status))
      ensures !reply.Done? ==> Stored() == old(Stored())
      ensures reply.Duplicate? <==> shortName in old(Stored())
      ensures reply.Busy? <==>
        shortName !in old(Stored()) && status != "FUTURE" && Current(old(Stored())).Some?
      ensures reply.Busy? ==> Current(old(Stored())) == Some(reply.current)
      ensures reply.Done? || reply.Duplicate? || reply.Busy?
      ensures forall t :: t != CHUNK ==> index.project.FoldersOf(t) == old(index.project.FoldersOf(t))
    {
      var fs := index.project.FoldersOf(CHUNK);
      if shortName in fs {
        return Duplicate;
      }
      if status != "FUTURE" {
        var current := GetCurrentChunk(now);
        if current.Some? {
          return Busy(current.value);
        }
      }
      var entry := FreshEntry(now);
      StoreChunk(shortName, entry.tips, status, now);
      if Sound(fs) { CreationMovesFrontier(fs, shortName, entry.tips, status, now); }
      reply := Done(shortName);
    }

    method StoreChunk(name: string, parents: seq<string>, status: string, now: int)
      requires Valid() && name !in Stored()
      modifies index.project`folders
      ensures Valid() && Stored() == old(Stored())[name := NewChunk(parents, status, now)]
      ensures forall t :: t != CHUNK ==> index.project.FoldersOf(t) == old(index.project.FoldersOf(t))
    {
      var fs := index.project.FoldersOf(CHUNK);
      var fs' := fs[name := NewChunk(parents, status, now)];
      GrowthKeepsIndexGood(fs, fs', index.cache);
      GrowthKeepsIndexGood(fs, fs', index.project.indexFile);
      index.project.folders := index.project.folders[CHUNK := fs'];
    }

    method StoreStatus(name: string, status: string, now: int)
      requires Valid() && name in Stored() && Stored()[name].main.Some?
      modifies index.project`folders
      ensures Valid() && Stored() == SetStatus(old(Stored()), name, status, now)
      ensures OnlyStatusChanges(old(Stored()), Stored(), name, status, now)
      ensures forall t :: t != CHUNK ==> index.project.FoldersOf(t) == old(index.project.FoldersOf(t))
    {
      var fs := index.project.FoldersOf(CHUNK);
      var fs' := SetStatus(fs, name, status, now);
      StatusKeepsGraph(fs, name, status, now);
      SetStatusIff(fs, fs', name, status, now);
      GrowthKeepsIndexGood(fs, fs', index.cache);
      GrowthKeepsIndexGood(fs, fs', index.project.indexFile);
      index.project.folders := index.project.folders[CHUNK := fs'];
    }

    method ActivateChunk(name: string, now: int) returns (reply: Reply)
      requires Valid()
      modifies index`cache, index.project
      ensures Valid()
      ensures reply.Done? <==> Current(old(Stored())) == None && HasStatus(old(Stored()), name, "FUTURE")
      ensures reply.Done? ==> Activates(old(Stored()), Stored(), name, now)
      ensures reply.Done? ==> OnlyStatusChanges(old(Stored()), Stored(), name, "IMPLEMENTING", now)
      ensures !reply.Done? ==> Stored() == old(Stored())
      ensures reply.NotFound? <==> name !in old(Stored())
      ensures reply.Busy? <==> name in old(Stored()) && Current(old(Stored())).Some?
    {
      if name !in index.project.FoldersOf(CHUNK) {
        return NotFound;
      }
      var current := GetCurrentChunk(now);
      if current.Some? {
        return Busy(current.value);
      }
      var status := ParsedStatus(index.project.FoldersOf(CHUNK)[name]);
      if status.None? {
        return Unreadable;
      }
      if status.value != "FUTURE" {
        return NotFuture;
      }
      StoreStatus(name, "IMPLEMENTING", now);
      reply := Done(name);
    }

    method UpdateStatus(name: string, status: string, now: int) returns (reply: Reply)
      requires Valid()
      modifies index.project`folders
      ensures Valid()
      ensures reply.NotFound? <==> name !in old(Stored())
      ensures reply.Unreadable? <==> name in old(Stored()) && ParsedStatus(old(Stored())[name]).None?
      ensures reply.Done? <==> exists from :: HasStatus(old(Stored()), name, from) && status in Transitions(from)
      ensures reply.Done? ==> Updates(old(Stored()), Stored(), name, status, now)
      ensures reply.Done? ==> OnlyStatusChanges(old(Stored()), Stored(), name, status, now)
      ensures reply.Done? || reply.NotFound? || reply.Unreadable? || reply.BadTransition?
      ensures !reply.Done? ==> Stored() == old(Stored())
    {
      if name !in index.project.FoldersOf(CHUNK) {
        return NotFound;
      }
      var current := ParsedStatus(index.project.FoldersOf(CHUNK)[name]);
      if current.None? {
        return Unreadable;
      }
      if status !in Transitions(current.value) {
        return BadTransition;
      }
      assert HasStatus(Stored(), name, current.value);
      StoreStatus(name, status, now);
      reply := Done(name);
    }

    /** `ve chunk complete`: with no name, the current chunk. */
    method CompleteChunk(name: Option<string>, now: int) returns (reply: Reply)
      requires Valid()
      modifies index`cache, index.project
      ensures Valid()
      ensures reply.Done? ==> Completes(old(Stored()), Stored(), reply.name, now)
      ensures reply.Done? ==> OnlyStatusChanges(old(Stored()), Stored(), reply.name, "ACTIVE", now)
      ensures reply.Done? && name.None? ==> Current(old(Stored())) == Some(reply.name)
      ensures reply.Done? && name.Some? ==> reply.name == name.value
      ensures !reply.Done? ==> Stored() == old(Stored())
      ensures name.None? ==> (reply.Done? <==> Current(old(Stored())).Some?)
      ensures name.Some? ==> (reply.Done? <==> name.value in old(Stored()) && old(Stored())[name.value].main.Some?)
      ensures name.Some? ==> (reply.NotFound? <==> name.value !in old(Stored()))
    {
      var target := name;
      if target.None? {
        target := GetCurrentChunk(now);
      }
      if target.None? || target.value !in index.project.FoldersOf(CHUNK) {
        return NotFound;
      }
      if index.project.FoldersOf(CHUNK)[target.value].main.None? {
        return Unreadable;
      }
      StoreStatus(target.value, "ACTIVE", now);
      reply := Done(target.value);
    }
  }
}
