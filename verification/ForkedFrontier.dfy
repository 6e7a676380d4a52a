/** A run in which a stale index forks the frontier. */
module ForkedFrontier {
  import opened Names
  import opened CausalOrder
  import opened Frontier
  import opened ArtifactIndexing
  import opened IndexFreshness
  import opened HiddenEdits
  import opened ChunkLifecycle
  import opened Options

  // ----- the life of two chunks -----

  function Planned(a: string): Folders {
    map[a := NewChunk([], "FUTURE", 1)]
  }

  function Started(a: string): Folders {
    SetStatus(Planned(a), a, "IMPLEMENTING", 3)
  }

  function Completed(a: string): Folders {
    SetStatus(Started(a), a, "ACTIVE", 4)
  }

  function Joined(a: string, b: string): Folders {
    Completed(a)[b := NewChunk([], "IMPLEMENTING", 6)]
  }

  function States(a: string, b: string): seq<Folders> {
    [map[], Planned(a), Started(a), Completed(a), Joined(a, b)]
  }

  function Life(a: string, b: string, parents: seq<string>): seq<ChunkStep> {
    [Create(a, [], "FUTURE", 1), Activate(a, 3), Complete(a, 4), Create(b, parents, "IMPLEMENTING", 6)]
  }

  lemma StatusesDiffer()
    ensures "FUTURE" != "IMPLEMENTING" && "ACTIVE" != "IMPLEMENTING" && "FUTURE" != "ACTIVE" && "FUTURE" != "EXTERNAL"
  {
    StatusNamesDiffer();
    assert "FUTURE"[0] == 'F' && "ACTIVE"[0] == 'A' && "EXTERNAL"[0] == 'E';
  }

  /** One chunk, at the name `a` and without parents. */
  predicate OneChunk(fs: Folders, a: string, status: string, mtime: int) {
    fs.Keys == {a} && fs[a] == NewChunk([], status, mtime)
  }

  lemma LifeOfOne(a: string)
    ensures OneChunk(Planned(a), a, "FUTURE", 1) && OneChunk(Started(a), a, "IMPLEMENTING", 3)
    ensures OneChunk(Completed(a), a, "ACTIVE", 4)
  {
  }

  lemma OneChunkGraph(fs: Folders, a: string, status: string, mtime: int)
    requires OneChunk(fs, a, status, mtime)
    ensures Artifacts(fs) == {a} && DepsIn(fs) == map[a := []]
  {
  }

  lemma NoneImplementing(fs: Folders, a: string, status: string, mtime: int)
    requires OneChunk(fs, a, status, mtime) && status != "IMPLEMENTING"
    ensures Current(fs) == None
  {
    assert forall n :: !Implementing(fs, n);
  }

  lemma FirstSteps(a: string)
    ensures Steps(map[], Create(a, [], "FUTURE", 1), Planned(a))
    ensures Steps(Planned(a), Activate(a, 3), Started(a)) && Steps(Started(a), Complete(a, 4), Completed(a))
  {
    LifeOfOne(a);
    StatusesDiffer();
    NoneImplementing(Planned(a), a, "FUTURE", 1);
    assert HasStatus(Planned(a), a, "FUTURE");
  }

  lemma LastStep(a: string, b: string)
    requires a != b
    ensures Steps(Completed(a), Create(b, [], "IMPLEMENTING", 6), Joined(a, b))
  {
    LifeOfOne(a);
    StatusesDiffer();
    NoneImplementing(Completed(a), a, "ACTIVE", 4);
  }

  lemma LifeIsARun(a: string, b: string)
    requires a != b
    ensures LifecycleRun(States(a, b), Life(a, b, []))
  {
    FirstSteps(a);
    LastStep(a, b);
    FourSteps(map[], Create(a, [], "FUTURE", 1), Planned(a), Activate(a, 3), Started(a), Complete(a, 4), Completed(a),
              Create(b, [], "IMPLEMENTING", 6), Joined(a, b));
  }

  lemma FourSteps(fs0: Folders, s0: ChunkStep, fs1: Folders, s1: ChunkStep, fs2: Folders, s2: ChunkStep, fs3: Folders,
                  s3: ChunkStep, fs4: Folders)
    requires fs0 == map[] && Steps(fs0, s0, fs1) && Steps(fs1, s1, fs2) && Steps(fs2, s2, fs3) && Steps(fs3, s3, fs4)
    ensures LifecycleRun([fs0, fs1, fs2, fs3, fs4], [s0, s1, s2, s3])
  {
    var states, steps := [fs0, fs1, fs2, fs3, fs4], [s0, s1, s2, s3];
    forall i | 0 <= i < |steps| ensures Steps(states[i], steps[i], states[i+1]) {
      if i == 0 {
      } else if i == 1 {
      } else if i == 2 {
      } else {
        assert i == 3;
      }
    }
  }

  // ----- the frontier -----

  lemma NoParentsAllTips(fs: Folders, n: string)
    requires Sound(fs) && (forall m :: m in Artifacts(fs) ==> DepsIn(fs)[m] == [])
    ensures n in FreshBuild(CHUNK, fs).tips <==> n in EligibleIn(CHUNK, fs)
  {
    SoundGuardIsExact(fs);
    assert !NamedByEligible(DepsIn(fs), EligibleIn(CHUNK, fs), n);
  }

  lemma PlannedHasNoTips(a: string)
    ensures FreshBuild(CHUNK, Planned(a)).tips == []
  {
    LifeOfOne(a);
    StatusesDiffer();
    OneChunkGraph(Planned(a), a, "FUTURE", 1);
    assert EligibleIn(CHUNK, Planned(a)) == {};
    OrderedIsCausal(DepsIn(Planned(a)));
    var tips := FreshBuild(CHUNK, Planned(a)).tips;
    DistinctLength(tips);
    assert Elems(tips) == {};
  }

  lemma TwoTips(a: string, b: string)
    requires a != b && Sound(Joined(a, b))
    ensures forall n :: n in FreshBuild(CHUNK, Joined(a, b)).tips <==> n == a || n == b
  {
    var fs := Joined(a, b);
    LifeOfOne(a);
    assert Artifacts(fs) == {a, b};
    assert CountsForTips("ACTIVE") && CountsForTips("IMPLEMENTING");
    assert EligibleIn(CHUNK, fs) == {a, b};
    forall n ensures n in FreshBuild(CHUNK, fs).tips <==> n == a || n == b {
      NoParentsAllTips(fs, n);
    }
  }

  // ----- the index meanwhile -----

  ghost function EmptyIndex(): Index {
    map[CHUNK := FreshBuild(CHUNK, map[])]
  }

  ghost function ChunkIndex(a: string): Index {
    EmptyIndex()[CHUNK := FreshBuild(CHUNK, Planned(a))]
  }

  ghost function BothIndex(a: string): Index {
    ChunkIndex(a)[NARRATIVE := FreshBuild(NARRATIVE, map[])]
  }

  ghost function Holding(folders: map<ArtifactType, Folders>, index: Index, mtime: int): World {
    World(folders, Some(index), mtime, map[0 := Some(index)])
  }

  function ToPlanned(a: string): seq<Action> {
    [Start(0)] + [Query(0, CHUNK, 1)] + [ChangeFolders(CHUNK, Planned(a))]
  }

  function ToCompleted(a: string): seq<Action> {
    ToPlanned(a) + [Query(0, CHUNK, 2)] + [ChangeFolders(CHUNK, Started(a))] + [ChangeFolders(CHUNK, Completed(a))]
  }

  function ToAnswer(a: string): seq<Action> {
    ToCompleted(a) + [Query(0, NARRATIVE, 5)] + [Query(0, CHUNK, 6)]
  }

  lemma OneRespects(fs: Folders, a: string, status: string, mtime: int)
    requires OneChunk(fs, a, status, mtime)
    ensures Respects(NoParents(), CHUNK, fs)
  {
  }

  lemma PlaysToPlanned(a: string)
    ensures Plays(NoParents(), ToPlanned(a), Holding(map[CHUNK := Planned(a)], EmptyIndex(), 1))
  {
    var h := NoParents();
    var w1 := World(map[], None, 0, map[0 := None]);
    PlayNothing(h);
    PlayOne(h, [], NOTHING, Start(0));
    assert [] + [Start(0)] == [Start(0)] && After(NOTHING, Start(0)) == w1;
    PlayOne(h, [Start(0)], w1, Query(0, CHUNK, 1));
    EmptyQuery(w1);
    LifeOfOne(a);
    OneRespects(Planned(a), a, "FUTURE", 1);
    PlayOne(h, [Start(0)] + [Query(0, CHUNK, 1)], Holding(map[], EmptyIndex(), 1), ChangeFolders(CHUNK, Planned(a)));
  }

  lemma EmptyQuery(w: World)
    requires w == World(map[], None, 0, map[0 := None])
    ensures After(w, Query(0, CHUNK, 1)) == Holding(map[], EmptyIndex(), 1)
  {
    assert WorkingIndex(w, 0) == map[];
    assert w.caches[0 := Some(EmptyIndex())] == map[0 := Some(EmptyIndex())];
  }

  lemma StaleQuery(folders: map<ArtifactType, Folders>, index: Index, mtime: int, t: ArtifactType, now: int)
    requires StaleFor(Holding(folders, index, mtime), 0, t)
    ensures After(Holding(folders, index, mtime), Query(0, t, now))
         == Holding(folders, index[t := FreshBuild(t, FoldersIn(Holding(folders, index, mtime), t))], now)
  {
    var index' := index[t := FreshBuild(t, FoldersIn(Holding(folders, index, mtime), t))];
    assert map[0 := Some(index)][0 := Some(index')] == map[0 := Some(index')];
  }

  lemma Edited(fs: Folders, fs': Folders, index: Index, mtime: int)
    ensures After(Holding(map[CHUNK := fs], index, mtime), ChangeFolders(CHUNK, fs'))
         == Holding(map[CHUNK := fs'], index, mtime)
  {
    assert map[CHUNK := fs][CHUNK := fs'] == map[CHUNK := fs'];
  }

  lemma NoDirectories()
    ensures EmptyIndex()[CHUNK].directories == {}
  {
    var none: Folders := map[];
    assert Artifacts(none) == {};
  }

  lemma OtherDirectories(w: World, id: nat, a: string)
    requires CHUNK in WorkingIndex(w, id) && WorkingIndex(w, id)[CHUNK].directories == {}
    requires a in Artifacts(FoldersIn(w, CHUNK))
    ensures StaleFor(w, id, CHUNK)
  {
  }

  /** The query that activation makes: the new directory is seen. */
  lemma SeesDirectory(a: string)
    ensures var w := Holding(map[CHUNK := Planned(a)], EmptyIndex(), 1);
            After(w, Query(0, CHUNK, 2)) == Holding(map[CHUNK := Planned(a)], ChunkIndex(a), 2)
  {
    var w := Holding(map[CHUNK := Planned(a)], EmptyIndex(), 1);
    NoDirectories();
    LifeOfOne(a);
    OneChunkGraph(Planned(a), a, "FUTURE", 1);
    OtherDirectories(w, 0, a);
    StaleQuery(map[CHUNK := Planned(a)], EmptyIndex(), 1, CHUNK, 2);
  }

  lemma PlaysToCompleted(a: string)
    ensures Plays(NoParents(), ToCompleted(a), Holding(map[CHUNK := Completed(a)], ChunkIndex(a), 2))
  {
    var h := NoParents();
    var acts := ToPlanned(a) + [Query(0, CHUNK, 2)];
    PlaysToPlanned(a);
    SeesDirectory(a);
    PlayOne(h, ToPlanned(a), Holding(map[CHUNK := Planned(a)], EmptyIndex(), 1), Query(0, CHUNK, 2));
    LifeOfOne(a);
    PlayEdit(acts, Planned(a), ChunkIndex(a), 2, a, Started(a), "IMPLEMENTING", 3);
    PlayEdit(acts + [ChangeFolders(CHUNK, Started(a))], Started(a), ChunkIndex(a), 2, a, Completed(a), "ACTIVE", 4);
  }

  lemma PlayEdit(acts: seq<Action>, fs: Folders, index: Index, saved: int, a: string, fs': Folders, status: string,
                 mtime: int)
    requires Plays(NoParents(), acts, Holding(map[CHUNK := fs], index, saved)) && OneChunk(fs', a, status, mtime)
    ensures Plays(NoParents(), acts + [ChangeFolders(CHUNK, fs')], Holding(map[CHUNK := fs'], index, saved))
  {
    OneRespects(fs', a, status, mtime);
    PlayOne(NoParents(), acts, Holding(map[CHUNK := fs], index, saved), ChangeFolders(CHUNK, fs'));
    Edited(fs, fs', index, saved);
  }

  /** The save for the other type makes the index file later than both edits. */
  lemma SavesOtherType(a: string)
    ensures var w := Holding(map[CHUNK := Completed(a)], ChunkIndex(a), 2);
            After(w, Query(0, NARRATIVE, 5)) == Holding(map[CHUNK := Completed(a)], BothIndex(a), 5)
  {
    StaleQuery(map[CHUNK := Completed(a)], ChunkIndex(a), 2, NARRATIVE, 5);
  }

  /** The index answers the entry from before the activation. */
  lemma AnswersOldEntry(a: string)
    ensures var w := Holding(map[CHUNK := Completed(a)], BothIndex(a), 5);
            && Answer(w, 0, CHUNK) == FreshBuild(CHUNK, Planned(a)) && After(w, Query(0, CHUNK, 6)) == w
  {
    var w := Holding(map[CHUNK := Completed(a)], BothIndex(a), 5);
    LifeOfOne(a);
    OneChunkGraph(Planned(a), a, "FUTURE", 1);
    OneChunkGraph(Completed(a), a, "ACTIVE", 4);
    assert !FolderNewer(Completed(a)[a], 5);
    StaleIffUnseen(w, 0, CHUNK, BothIndex(a)[CHUNK]);
    assert !StaleFor(w, 0, CHUNK);
    assert w.caches[0 := Some(BothIndex(a))] == w.caches;
  }

  lemma PlaysToAnswer(a: string)
    ensures Plays(NoParents(), ToAnswer(a), Holding(map[CHUNK := Completed(a)], BothIndex(a), 5))
  {
    var h := NoParents();
    PlaysToCompleted(a);
    SavesOtherType(a);
    AnswersOldEntry(a);
    PlayOne(h, ToCompleted(a), Holding(map[CHUNK := Completed(a)], ChunkIndex(a), 2), Query(0, NARRATIVE, 5));
    PlayOne(h, ToCompleted(a) + [Query(0, NARRATIVE, 5)], Holding(map[CHUNK := Completed(a)], BothIndex(a), 5),
            Query(0, CHUNK, 6));
  }

  /** One run, of the operations on chunks and of the index alike: a chunk is planned and indexed, activated and
      completed by name, and the index is saved for another type. The next creation takes its parents from the index,
      which answers the entry from before the activation, with no tips. Every state is sound, and in the last one the
      frontier has two tips. */
  lemma {:induction false} StaleEntryForksFrontier(a: string, b: string) returns (ws: seq<World>, acts: seq<Action>)
    requires a != b
    ensures Run(NoParents(), ws, acts) && acts == ToAnswer(a) + [ChangeFolders(CHUNK, Joined(a, b))]
    ensures LifecycleRun(States(a, b), Life(a, b, Answer(ws[8], 0, CHUNK).tips))
    ensures Sound(Completed(a)) && FreshBuild(CHUNK, Completed(a)).tips == [a]
    ensures forall n :: n in FreshBuild(CHUNK, FoldersIn(ws[9], CHUNK)).tips <==> n == a || n == b
  {
    PlaysToAnswer(a);
    AnswersOldEntry(a);
    PlannedHasNoTips(a);
    var w := Holding(map[CHUNK := Completed(a)], BothIndex(a), 5);
    JoinedRespects(a, b);
    PlayOne(NoParents(), ToAnswer(a), w, ChangeFolders(CHUNK, Joined(a, b)));
    acts := ToAnswer(a) + [ChangeFolders(CHUNK, Joined(a, b))];
    ws := Worlds(NOTHING, acts);
    assert acts[..8] == ToAnswer(a) && ws[8] == w;
    LifeIsARun(a, b);
    SoundAtTheEnd(a, b);
    TwoTips(a, b);
  }

  lemma JoinedRespects(a: string, b: string)
    requires a != b
    ensures Respects(NoParents(), CHUNK, Joined(a, b))
  {
    LifeOfOne(a);
  }

  lemma SoundAtTheEnd(a: string, b: string)
    requires a != b
    ensures Sound(Completed(a)) && Sound(Joined(a, b)) && FreshBuild(CHUNK, Completed(a)).tips == [a]
  {
    LifeIsARun(a, b);
    RunsAreSound(States(a, b), Life(a, b, []), 3);
    RunsAreSound(States(a, b), Life(a, b, []), 4);
    LifeOfOne(a);
    OneChunkGraph(Completed(a), a, "ACTIVE", 4);
    assert CountsForTips("ACTIVE");
    assert EligibleIn(CHUNK, Completed(a)) == {a};
    forall n ensures n in FreshBuild(CHUNK, Completed(a)).tips <==> n == a { NoParentsAllTips(Completed(a), n); }
    OrderedIsCausal(DepsIn(Completed(a)));
    OnlyMember(FreshBuild(CHUNK, Completed(a)).tips, a);
  }
}
