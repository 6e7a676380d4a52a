/** The memory files of an entity: merging the memories that consolidation returns, and cycles of decay applied. */
module MemoryStore {
  import opened MemoryDecay
  import Names
  import opened Options

  type Files = map<Path, Memory>

  function Stems(files: Files, tier: Tier): set<string> {
    set p | p in files && p.folder == tier :: p.stem
  }

  predicate AllThere(files: Files, tier: Tier, stems: seq<string>) {
    forall s :: s in stems ==> Path(tier, s) in files
  }

  function Loaded(files: Files, tier: Tier, stems: seq<string>): seq<Item>
    requires AllThere(files, tier, stems)
  {
    if stems == [] then [] else
      var p := Path(tier, stems[|stems|-1]);
      assert stems[|stems|-1] in stems;
      Loaded(files, tier, stems[..|stems|-1]) + [Item(files[p], p)]
  }

  lemma {:induction false} LoadedAt(files: Files, tier: Tier, stems: seq<string>)
    requires AllThere(files, tier, stems)
    ensures |Loaded(files, tier, stems)| == |stems|
    ensures forall i :: 0 <= i < |stems| ==>
              Path(tier, stems[i]) in files
              && Loaded(files, tier, stems)[i] == Item(files[Path(tier, stems[i])], Path(tier, stems[i]))
  {
    if stems != [] {
      LoadedAt(files, tier, stems[..|stems|-1]);
      assert stems[|stems|-1] in stems;
    }
  }

  lemma LoadedSnoc(files: Files, tier: Tier, stems: seq<string>, i: nat)
    requires i < |stems| && AllThere(files, tier, stems[..i]) && Path(tier, stems[i]) in files
    ensures AllThere(files, tier, stems[..i+1])
    ensures Loaded(files, tier, stems[..i+1])
         == Loaded(files, tier, stems[..i]) + [Item(files[Path(tier, stems[i])], Path(tier, stems[i]))]
  {
    assert stems[..i+1][..i] == stems[..i];
  }

  lemma StemIsThere(files: Files, tier: Tier, stem: string)
    requires stem in Stems(files, tier)
    ensures Path(tier, stem) in files
  {
  }

  /** The files of one folder, sorted by name. */
  ghost function Folder(files: Files, tier: Tier): seq<Item> {
    Loaded(files, tier, Names.InOrder(Stems(files, tier)))
  }

  ghost function Listing(files: Files): seq<Item> {
    Folder(files, Journal) + Folder(files, Consolidated) + Folder(files, Core)
  }

  ghost predicate OnDisk(files: Files, x: Item) {
    x.path in files && files[x.path] == x.memory
  }

  lemma FolderMembers(files: Files, tier: Tier, x: Item)
    ensures x in Folder(files, tier) <==> OnDisk(files, x) && x.path.folder == tier
  {
    var stems := Names.InOrder(Stems(files, tier));
    LoadedAt(files, tier, stems);
    if OnDisk(files, x) && x.path.folder == tier {
      assert x.path.stem in Stems(files, tier);
      var i :| 0 <= i < |stems| && stems[i] == x.path.stem;
      assert Folder(files, tier)[i] == x;
    }
  }

  lemma ListingMembers(files: Files, x: Item)
    ensures x in Listing(files) <==> OnDisk(files, x)
  {
    FolderMembers(files, Journal, x);
    FolderMembers(files, Consolidated, x);
    FolderMembers(files, Core, x);
  }

  lemma FolderOnce(files: Files, tier: Tier, x: Item)
    ensures multiset(Folder(files, tier))[x] <= 1
    ensures x in Folder(files, tier) ==> x.path.folder == tier
  {
    var stems := Names.InOrder(Stems(files, tier));
    LoadedAt(files, tier, stems);
    var q := Folder(files, tier);
    forall i, j | 0 <= i < j < |q| ensures q[i] != q[j] {
      assert stems[i] != stems[j];
    }
    DistinctOnce(q, x);
    FolderMembers(files, tier, x);
  }

  lemma {:induction false} DistinctOnce(q: seq<Item>, x: Item)
    requires forall i, j :: 0 <= i < j < |q| ==> q[i] != q[j]
    ensures multiset(q)[x] <= 1
  {
    if q != [] {
      var n := |q| - 1;
      DistinctOnce(q[..n], x);
      assert q == q[..n] + [q[n]];
      if x == q[n] {
        assert x !in q[..n];
      }
    }
  }

  /** Every file is listed once. */
  lemma ListedOnce(files: Files, x: Item)
    ensures multiset(Listing(files))[x] <= 1
  {
    FolderOnce(files, Journal, x);
    FolderOnce(files, Consolidated, x);
    FolderOnce(files, Core, x);
    var a, b, c := Folder(files, Journal), Folder(files, Consolidated), Folder(files, Core);
    assert multiset(a + b + c)[x] == multiset(a)[x] + multiset(b)[x] + multiset(c)[x];
    assert (x in a <==> multiset(a)[x] > 0) && (x in b <==> multiset(b)[x] > 0) && (x in c <==> multiset(c)[x] > 0);
  }

  // ----- one cycle of decay on disk -----

  function NewPath(name: string): Path {
    Path(Consolidated, name)
  }

  ghost predicate FreshNames(files: Files, names: seq<string>) {
    Names.NoDuplicates(names) && forall n :: n in names ==> NewPath(n) !in files
  }

  function PathsOf(q: seq<Item>): set<Path> {
    set x | x in q :: x.path
  }

  /** `files'` is `files` without the `gone` and the `down` items, the latter written again a tier lower. */
  ghost predicate Moved(files: Files, files': Files, gone: seq<Item>, down: seq<Item>, names: seq<string>) {
    && |down| <= |names|
    && (forall p :: MovedAt(files, files', gone, down, names, p))
    && (forall i :: 0 <= i < |down| ==> Written(files', Lowered(down[i]).memory, names[i]))
  }

  ghost predicate MovedAt(files: Files, files': Files, gone: seq<Item>, down: seq<Item>, names: seq<string>, p: Path)
    requires |down| <= |names|
  {
    && (p in files' <==> StillThere(files, gone, down, p) || IsNew(p, names[..|down|]))
    && (p in files && p in files' ==> files'[p] == files[p])
  }

  predicate Written(files: Files, m: Memory, name: string) {
    Path(m.tier, name) in files && files[Path(m.tier, name)] == m
  }

  ghost predicate StillThere(files: Files, gone: seq<Item>, down: seq<Item>, p: Path) {
    p in files && p !in PathsOf(gone) && p !in PathsOf(down)
  }

  predicate IsNew(p: Path, names: seq<string>) {
    p.folder == Consolidated && p.stem in names
  }

  lemma MovedSnoc(files: Files, files': Files, gone: seq<Item>, down: seq<Item>, names: seq<string>, x: Item)
    requires Moved(files, files', gone, down, names) && |down| < |names| && FreshNames(files, names)
    requires x.path in files
    ensures Moved(files, files'[NewPath(names[|down|]) := Lowered(x).memory] - {x.path}, gone, down + [x], names)
  {
    var n := |down|;
    var next := files'[NewPath(names[n]) := Lowered(x).memory] - {x.path};
    var more := down + [x];
    assert names[n] in names && NewPath(names[n]) != x.path;
    forall p ensures MovedAt(files, next, gone, more, names, p) {
      MovedAtSnoc(files, files', gone, down, names, x, p);
    }
    forall i | 0 <= i < n + 1 ensures Written(next, Lowered(more[i]).memory, names[i]) {
      assert names[i] in names;
      if i < n { assert Written(files', Lowered(down[i]).memory, names[i]); }
    }
  }

  lemma MovedAtSnoc(files: Files, files': Files, gone: seq<Item>, down: seq<Item>, names: seq<string>, x: Item, p: Path)
    requires |down| < |names| && FreshNames(files, names) && x.path in files
    requires MovedAt(files, files', gone, down, names, p)
    ensures MovedAt(files, files'[NewPath(names[|down|]) := Lowered(x).memory] - {x.path}, gone, down + [x], names, p)
  {
    var n := |down|;
    assert names[n] in names;
    assert PathsOf(down + [x]) == PathsOf(down) + {x.path};
    assert names[..n+1] == names[..n] + [names[n]];
    if IsNew(p, names[..n]) { assert p.stem in names && NewPath(p.stem) == p; }
  }

  /** One cycle: what the decisions about the listed files make of the disk. */
  ghost predicate Cycled(files: Files, files': Files, now: int, config: Config, names: seq<string>) {
    Moved(files, files', Expiring(Listing(files), now, config), Demoting(Listing(files), now, config), names)
  }

  datatype Fate = Stays | MovesTo(path: Path) | Gone

  /** What happens to the file at `p`. */
  ghost function FateOf(files: Files, now: int, config: Config, names: seq<string>, p: Path): Fate
    requires p in files && |Demoting(Listing(files), now, config)| <= |names|
  {
    var x, down := Item(files[p], p), Demoting(Listing(files), now, config);
    if x in Expiring(Listing(files), now, config) then Gone
    else if x in down then
      var i :| 0 <= i < |down| && down[i] == x;
      MovesTo(NewPath(names[i]))
    else Stays
  }

  lemma InPathsOf(files: Files, q: seq<Item>, p: Path)
    requires p in files && forall x :: x in q ==> OnDisk(files, x)
    ensures p in PathsOf(q) <==> Item(files[p], p) in q
  {
    if Item(files[p], p) in q {
      assert Item(files[p], p).path == p;
    }
  }

  lemma DecidedListed(files: Files, now: int, config: Config, x: Item)
    ensures x in Expiring(Listing(files), now, config) || x in Demoting(Listing(files), now, config) ==>
          x in Listing(files)
  {
    EachInOnePlace(Listing(files), now, config);
    assert x in multiset(Listing(files)) <==> x in Listing(files);
  }

  lemma DecidedOnDisk(files: Files, now: int, config: Config)
    ensures forall x :: x in Expiring(Listing(files), now, config) ==> OnDisk(files, x)
    ensures forall x :: x in Demoting(Listing(files), now, config) ==> OnDisk(files, x)
  {
    forall x
      ensures x in Expiring(Listing(files), now, config) || x in Demoting(Listing(files), now, config) ==>
                OnDisk(files, x)
    {
      DecidedListed(files, now, config, x);
      ListingMembers(files, x);
    }
  }

  /** A file stays as it is, salience included, or is a core memory that moves one tier down, or is not core, is past
      its threshold and disappears. */
  lemma FateIsExact(files: Files, files': Files, now: int, config: Config, names: seq<string>, p: Path)
    requires Cycled(files, files', now, config, names) && FreshNames(files, names) && p in files
    ensures var x := Item(files[p], p);
            match FateOf(files, now, config, names, p)
            case Stays => p in files' && files'[p] == files[p] && !Stale(x, now, config)
            case MovesTo(q) => p !in files' && q in files' && files'[q] == files[p].(tier := Consolidated)
                               && files[p].tier == Core && q != p
            case Gone => p !in files' && files[p].tier != Core && Stale(x, now, config)
  {
    var x, items := Item(files[p], p), Listing(files);
    ListingMembers(files, x);
    FateByAge(items, now, config, x);
    DecidedOnDisk(files, now, config);
    OldFile(files, files', Expiring(items, now, config), Demoting(items, now, config), names, p);
    if FateOf(files, now, config, names, p).MovesTo? {
      var i := MovesToIndex(files, Cycle(now, config, names), p);
      assert Written(files', Lowered(x).memory, names[i]);
      assert names[i] in names;
    }
  }

  /** A file that stays is on disk in the form in which its memory survives exactly when its salience was not lowered;
      the event is there either way. */
  lemma {:induction false} SavedIffNotFading(files: Files, files': Files, now: int, config: Config, names: seq<string>,
                                             p: Path)
    requires Cycled(files, files', now, config, names) && FreshNames(files, names) && p in files
    requires FateOf(files, now, config, names, p).Stays?
    ensures var x := Item(files[p], p);
            && x in Kept(Listing(files), now, config)
            && p in files' && (files'[p] == Faded(x, now, config).memory <==> !Fading(x, now, config))
            && (Fading(x, now, config) ==>
                  FadeEvent(x, now) in FadeEvents(Kept(Listing(files), now, config), now, config))
  {
    var x, items := Item(files[p], p), Listing(files);
    FateIsExact(files, files', now, config, names, p);
    ListingMembers(files, x);
    StaysIsKept(files, now, config, names, p);
    if Fading(x, now, config) {
      FadingIsReported(Kept(items, now, config), now, config, x);
    }
  }

  lemma StaysIsKept(files: Files, now: int, config: Config, names: seq<string>, p: Path)
    requires p in files && |Demoting(Listing(files), now, config)| <= |names|
    requires FateOf(files, now, config, names, p).Stays?
    ensures Item(files[p], p) in Kept(Listing(files), now, config)
  {
    var x, items := Item(files[p], p), Listing(files);
    ListingMembers(files, x);
    FateByAge(items, now, config, x);
  }

  lemma {:induction false} FadingIsReported(q: seq<Item>, now: int, config: Config, x: Item)
    requires x in q && Fading(x, now, config)
    ensures FadeEvent(x, now) in FadeEvents(q, now, config)
  {
    var front, last := q[..|q|-1], q[|q|-1];
    assert q == front + [last];
    if x == last {
      assert Faded(x, now, config).memory.salience != x.memory.salience;
    } else {
      FadingIsReported(front, now, config, x);
    }
  }

  /** Every consolidated memory in the second half of its term, of salience above one, is such a file. */
  lemma FadingStays(files: Files, now: int, config: Config, names: seq<string>, p: Path)
    requires p in files && |Demoting(Listing(files), now, config)| <= |names|
    requires Fading(Item(files[p], p), now, config)
    ensures FateOf(files, now, config, names, p).Stays? <==> !Stale(Item(files[p], p), now, config)
  {
    var x := Item(files[p], p);
    ListingMembers(files, x);
    FateByAge(Listing(files), now, config, x);
  }

  /** A file that was there is left, unchanged, exactly when it is neither among the gone nor among the moved. */
  lemma OldFile(files: Files, files': Files, gone: seq<Item>, down: seq<Item>, names: seq<string>, p: Path)
    requires Moved(files, files', gone, down, names) && FreshNames(files, names) && p in files
    requires (forall x :: x in gone ==> OnDisk(files, x)) && (forall x :: x in down ==> OnDisk(files, x))
    ensures p in files' <==> Item(files[p], p) !in gone && Item(files[p], p) !in down
    ensures p in files' ==> files'[p] == files[p]
  {
    InPathsOf(files, gone, p);
    InPathsOf(files, down, p);
    assert MovedAt(files, files', gone, down, names, p);
    NewNotThere(files, names);
    assert IsNew(p, names[..|down|]) ==> IsNew(p, names);
  }

  lemma NewFile(files: Files, files': Files, gone: seq<Item>, down: seq<Item>, names: seq<string>, q: Path)
    returns (i: nat)
    requires Moved(files, files', gone, down, names) && q in files' && q !in files
    ensures i < |down| && q == NewPath(names[i])
  {
    assert MovedAt(files, files', gone, down, names, q);
    i :| 0 <= i < |down| && names[..|down|][i] == q.stem;
  }

  lemma AtMostOnce(q: seq<Item>, i: nat, j: nat)
    requires i < j < |q|
    ensures multiset(q)[q[i]] > 1 || q[i] != q[j]
  {
    assert q == q[..j] + [q[j]] + q[j+1..];
    assert q[i] in q[..j];
  }

  lemma NewNotThere(files: Files, names: seq<string>)
    requires FreshNames(files, names)
    ensures forall p :: p in files ==> !IsNew(p, names)
  {
    forall p | p in files ensures !IsNew(p, names) {
      assert p.folder == Consolidated ==> NewPath(p.stem) == p;
    }
  }

  lemma DemotedOnce(files: Files, now: int, config: Config, i: nat)
    requires i < |Demoting(Listing(files), now, config)|
    ensures var down := Demoting(Listing(files), now, config);
            forall j :: 0 <= j < |down| && down[j] == down[i] ==> j == i
  {
    var items := Listing(files);
    var down := Demoting(items, now, config);
    EachInOnePlace(items, now, config);
    ListedOnce(files, down[i]);
    forall j | 0 <= j < |down| && j != i ensures down[j] != down[i] {
      if j < i { AtMostOnce(down, j, i); } else { AtMostOnce(down, i, j); }
    }
  }

  datatype Cycle = Cycle(now: int, config: Config, names: seq<string>)

  ghost predicate RunStep(files: Files, files': Files, c: Cycle) {
    FreshNames(files, c.names) && Cycled(files, files', c.now, c.config, c.names)
  }

  /** Where each file that is left after the cycle has gone. */
  ghost function NextOf(files: Files, c: Cycle): map<Path, Path>
    requires |Demoting(Listing(files), c.now, c.config)| <= |c.names|
  {
    map p | p in files && FateOf(files, c.now, c.config, c.names, p) != Gone ::
      if FateOf(files, c.now, c.config, c.names, p).Stays? then p else FateOf(files, c.now, c.config, c.names, p).path
  }

  lemma MovesToIndex(files: Files, c: Cycle, p: Path) returns (i: nat)
    requires p in files && |Demoting(Listing(files), c.now, c.config)| <= |c.names|
    requires FateOf(files, c.now, c.config, c.names, p).MovesTo?
    ensures i < |Demoting(Listing(files), c.now, c.config)|
          && Demoting(Listing(files), c.now, c.config)[i] == Item(files[p], p)
    ensures FateOf(files, c.now, c.config, c.names, p).path == NewPath(c.names[i])
  {
    var down := Demoting(Listing(files), c.now, c.config);
    i :| 0 <= i < |down| && down[i] == Item(files[p], p)
         && FateOf(files, c.now, c.config, c.names, p).path == NewPath(c.names[i]);
  }

  lemma NewIsNotOld(files: Files, c: Cycle, p: Path)
    requires p in files && |Demoting(Listing(files), c.now, c.config)| <= |c.names| && FreshNames(files, c.names)
    ensures FateOf(files, c.now, c.config, c.names, p).MovesTo? ==>
          FateOf(files, c.now, c.config, c.names, p).path !in files
  {
    if FateOf(files, c.now, c.config, c.names, p).MovesTo? {
      var i := MovesToIndex(files, c, p);
      assert c.names[i] in c.names;
    }
  }

  /** Two files never become one. */
  lemma NextIsInjective(files: Files, c: Cycle, p: Path, r: Path)
    requires |Demoting(Listing(files), c.now, c.config)| <= |c.names| && FreshNames(files, c.names)
    requires p in NextOf(files, c) && r in NextOf(files, c) && NextOf(files, c)[p] == NextOf(files, c)[r]
    ensures p == r
  {
    NewIsNotOld(files, c, p);
    NewIsNotOld(files, c, r);
    if FateOf(files, c.now, c.config, c.names, p).MovesTo? && FateOf(files, c.now, c.config, c.names, r).MovesTo? {
      MovesApart(files, c, p, r);
    }
  }

  lemma MovesApart(files: Files, c: Cycle, p: Path, r: Path)
    requires |Demoting(Listing(files), c.now, c.config)| <= |c.names| && Names.NoDuplicates(c.names)
    requires p in files && FateOf(files, c.now, c.config, c.names, p).MovesTo?
    requires r in files && FateOf(files, c.now, c.config, c.names, r) == FateOf(files, c.now, c.config, c.names, p)
    ensures p == r
  {
    var i := MovesToIndex(files, c, p);
    var j := MovesToIndex(files, c, r);
    assert c.names[i] == c.names[j];
    assert i == j;
  }

  lemma DemotedFateMoves(files: Files, c: Cycle, i: nat)
    requires |Demoting(Listing(files), c.now, c.config)| <= |c.names| && i < |Demoting(Listing(files), c.now, c.config)|
    ensures var p := Demoting(Listing(files), c.now, c.config)[i].path;
            p in files && FateOf(files, c.now, c.config, c.names, p) == MovesTo(NewPath(c.names[i]))
  {
    var x := Demoting(Listing(files), c.now, c.config)[i];
    DecidedOnDisk(files, c.now, c.config);
    DecidedListed(files, c.now, c.config, x);
    FateByAge(Listing(files), c.now, c.config, x);
    DemotedOnce(files, c.now, c.config, i);
  }

  /** Nothing appears on disk that was not there before. */
  lemma NextIsOnto(files: Files, files': Files, c: Cycle, q: Path) returns (p: Path)
    requires RunStep(files, files', c) && q in files'
    ensures p in NextOf(files, c) && NextOf(files, c)[p] == q
  {
    var down := Demoting(Listing(files), c.now, c.config);
    if q in files {
      DecidedOnDisk(files, c.now, c.config);
      OldFile(files, files', Expiring(Listing(files), c.now, c.config), down, c.names, q);
      p := q;
    } else {
      var i := NewFile(files, files', Expiring(Listing(files), c.now, c.config), down, c.names, q);
      DemotedFateMoves(files, c, i);
      p := down[i].path;
    }
  }

  // ----- runs of cycles, by what each does to the files -----

  ghost predicate PathEffect(files: Files, files': Files, c: Cycle, next: map<Path, Path>, p: Path)
    requires p in files
  {
    if p !in next then files[p].tier != Core && Stale(Item(files[p], p), c.now, c.config)
    else
      && next[p] in files'
      && if next[p] == p then files'[p] == files[p] && !Stale(Item(files[p], p), c.now, c.config)
         else files[p].tier == Core && files'[next[p]] == files[p].(tier := Consolidated)
  }

  /** What a cycle may do: every file stays unchanged because it is fresh, or is a core memory rewritten one tier down,
      or is a stale memory of a lower tier and disappears; and nothing else is on disk afterwards. */
  ghost predicate Effect(files: Files, files': Files, c: Cycle, next: map<Path, Path>) {
    && next.Keys <= files.Keys
    && (forall p :: p in files ==> PathEffect(files, files', c, next, p))
    && (forall q :: q in files' ==> exists p :: p in next && next[p] == q)
    && (forall p, r :: p in next && r in next && next[p] == next[r] ==> p == r)
    && |CorePaths(files')| <= c.config.coreCapacity
  }

  lemma {:induction false} CycleHasEffect(files: Files, files': Files, c: Cycle)
    requires RunStep(files, files', c)
    ensures Effect(files, files', c, NextOf(files, c))
  {
    var next := NextOf(files, c);
    forall p | p in files ensures PathEffect(files, files', c, next, p) {
      FateIsExact(files, files', c.now, c.config, c.names, p);
    }
    forall q | q in files' ensures exists p :: p in next && next[p] == q {
      var p := NextIsOnto(files, files', c, q);
    }
    forall p, r | p in next && r in next && next[p] == next[r] ensures p == r {
      NextIsInjective(files, c, p, r);
    }
    CoreFits(files, files', c);
  }

  /** Decay cycles with no reinforcement between them; `nexts[i]` says where the files went in cycle `i`. */
  ghost predicate Run(states: seq<Files>, cycles: seq<Cycle>, nexts: seq<map<Path, Path>>) {
    && |states| == |cycles| + 1 && |nexts| == |cycles|
    && forall i :: 0 <= i < |cycles| ==> Effect(states[i], states[i+1], cycles[i], nexts[i])
  }

  /** Cycles of the operation, one after the other. */
  ghost predicate Cycles(states: seq<Files>, cycles: seq<Cycle>) {
    |states| == |cycles| + 1 && forall i :: 0 <= i < |cycles| ==> RunStep(states[i], states[i+1], cycles[i])
  }

  lemma CycleOf(states: seq<Files>, cycles: seq<Cycle>, i: nat) returns (next: map<Path, Path>)
    requires Cycles(states, cycles) && i < |cycles|
    ensures Effect(states[i], states[i+1], cycles[i], next)
  {
    var files, files', c := states[i], states[i+1], cycles[i];
    assert RunStep(files, files', c);
    CycleHasEffect(files, files', c);
    next := NextOf(files, c);
  }

  ghost predicate EffectsUpTo(states: seq<Files>, cycles: seq<Cycle>, nexts: seq<map<Path, Path>>) {
    && |nexts| <= |cycles| < |states|
    && forall i :: 0 <= i < |nexts| ==> Effect(states[i], states[i+1], cycles[i], nexts[i])
  }

  lemma {:induction false} EffectsOf(states: seq<Files>, cycles: seq<Cycle>, n: nat)
    returns (nexts: seq<map<Path, Path>>)
    requires Cycles(states, cycles) && n <= |cycles|
    ensures |nexts| == n && EffectsUpTo(states, cycles, nexts)
  {
    if n == 0 {
      nexts := [];
    } else {
      var before := EffectsOf(states, cycles, n - 1);
      nexts := OneMoreEffect(states, cycles, before);
    }
  }

  lemma OneMoreEffect(states: seq<Files>, cycles: seq<Cycle>, nexts: seq<map<Path, Path>>)
    returns (more: seq<map<Path, Path>>)
    requires Cycles(states, cycles) && EffectsUpTo(states, cycles, nexts) && |nexts| < |cycles|
    ensures |more| == |nexts| + 1 && EffectsUpTo(states, cycles, more)
  {
    var next := CycleOf(states, cycles, |nexts|);
    AddEffect(states, cycles, nexts, next);
    more := nexts + [next];
  }

  lemma AddEffect(states: seq<Files>, cycles: seq<Cycle>, nexts: seq<map<Path, Path>>, next: map<Path, Path>)
    requires EffectsUpTo(states, cycles, nexts) && |nexts| < |cycles|
    requires Effect(states[|nexts|], states[|nexts|+1], cycles[|nexts|], next)
    ensures EffectsUpTo(states, cycles, nexts + [next])
  {
  }

  /** Cycles of the operation, one after the other, are a run. */
  lemma {:induction false} CyclesAreARun(states: seq<Files>, cycles: seq<Cycle>) returns (nexts: seq<map<Path, Path>>)
    requires Cycles(states, cycles)
    ensures Run(states, cycles, nexts)
  {
    nexts := EffectsOf(states, cycles, |cycles|);
  }

  /** Where the file that was at `p` in the beginning is after `n` cycles, if anywhere. */
  function Track(nexts: seq<map<Path, Path>>, p: Path, n: nat): Option<Path>
    requires n <= |nexts|
  {
    if n == 0 then Some(p) else
      var before := Track(nexts, p, n - 1);
      if before.Some? && before.value in nexts[n-1] then Some(nexts[n-1][before.value]) else None
  }

  /** How often the memory changed its file in `n` cycles. */
  function Moves(nexts: seq<map<Path, Path>>, p: Path, n: nat): nat
    requires n <= |nexts|
  {
    if n == 0 then 0 else
      Moves(nexts, p, n - 1)
      + if Track(nexts, p, n).Some? && Track(nexts, p, n) != Track(nexts, p, n - 1) then 1 else 0
  }

  lemma EffectOf(states: seq<Files>, cycles: seq<Cycle>, nexts: seq<map<Path, Path>>, i: nat, p: Path)
    requires Run(states, cycles, nexts) && i < |cycles| && p in states[i]
    ensures PathEffect(states[i], states[i+1], cycles[i], nexts[i], p)
  {
    assert Effect(states[i], states[i+1], cycles[i], nexts[i]);
  }

  /** A memory that started as `m` and has moved that often is at `r`, if anywhere. */
  ghost predicate Traced(m: Memory, moves: nat, r: Option<Path>, files: Files) {
    && moves <= 1 && (moves == 1 ==> m.tier == Core)
    && (r.Some? ==> r.value in files && files[r.value] == if moves == 0 then m else m.(tier := Consolidated))
  }

  lemma TraceStep(m: Memory, moves: nat, r: Path, files: Files, files': Files, c: Cycle, next: map<Path, Path>)
    requires Traced(m, moves, Some(r), files) && r in files && PathEffect(files, files', c, next, r)
    ensures var r' := if r in next then Some(next[r]) else None;
            Traced(m, moves + if r'.Some? && r' != Some(r) then 1 else 0, r', files')
  {
  }

  /** Over any number of cycles a memory keeps everything but its tier, which changes at most once, from core to
      consolidated. */
  lemma {:induction false} NeverPromotedDemotedOnce(states: seq<Files>, cycles: seq<Cycle>, nexts: seq<map<Path, Path>>,
                                                    p: Path, n: nat)
    requires Run(states, cycles, nexts) && n <= |cycles| && p in states[0]
    ensures Moves(nexts, p, n) <= 1 && (Moves(nexts, p, n) == 1 ==> states[0][p].tier == Core)
    ensures var r := Track(nexts, p, n);
            r.Some? ==>
              && r.value in states[n]
              && states[n][r.value] ==
                 if Moves(nexts, p, n) == 0 then states[0][p] else states[0][p].(tier := Consolidated)
  {
    forall i | 0 <= i < n ensures EffectAt(states, cycles, nexts, p, i) {
      if Track(nexts, p, i).Some? && Track(nexts, p, i).value in states[i] {
        EffectOf(states, cycles, nexts, i, Track(nexts, p, i).value);
      }
    }
    TracedAlong(states, cycles, nexts, p, n);
  }

  /** Cycle `i` has its effect on the file that `p` has become. */
  ghost predicate EffectAt(states: seq<Files>, cycles: seq<Cycle>, nexts: seq<map<Path, Path>>, p: Path, i: nat)
    requires i < |cycles| == |nexts| && |states| == |cycles| + 1
  {
    var r := Track(nexts, p, i);
    r.Some? && r.value in states[i] ==> PathEffect(states[i], states[i+1], cycles[i], nexts[i], r.value)
  }

  lemma {:induction false} TracedAlong(states: seq<Files>, cycles: seq<Cycle>, nexts: seq<map<Path, Path>>, p: Path,
                                       n: nat)
    requires n <= |cycles| == |nexts| && |states| == |cycles| + 1 && p in states[0]
    requires forall i :: 0 <= i < n ==> EffectAt(states, cycles, nexts, p, i)
    ensures Traced(states[0][p], Moves(nexts, p, n), Track(nexts, p, n), states[n])
  {
    if n > 0 {
      TracedAlong(states, cycles, nexts, p, n - 1);
      var before := Track(nexts, p, n - 1);
      if before.Some? {
        assert EffectAt(states, cycles, nexts, p, n - 1);
        TraceStep(states[0][p], Moves(nexts, p, n - 1), before.value, states[n-1], states[n-1+1], cycles[n-1],
                  nexts[n-1]);
      }
    }
  }

  /** Old enough for every tier. */
  predicate Overdue(m: Memory, c: Cycle) {
    && Days(m, c.now) >= c.config.journalExpiry && Days(m, c.now) >= c.config.consolidatedExpiry
    && Days(m, c.now) >= c.config.coreDemotion
  }

  lemma {:induction false} GoneStaysGone(nexts: seq<map<Path, Path>>, p: Path, i: nat, n: nat)
    requires i <= n <= |nexts|
    ensures Track(nexts, p, i).None? ==> Track(nexts, p, n).None?
    ensures Moves(nexts, p, i) <= Moves(nexts, p, n)
  {
    if i < n { GoneStaysGone(nexts, p, i, n - 1); }
  }

  /** A cycle that finds a memory overdue removes it, unless it is core, and then it moves. */
  lemma OneOverdueCycle(states: seq<Files>, cycles: seq<Cycle>, nexts: seq<map<Path, Path>>, p: Path, i: nat)
    requires Run(states, cycles, nexts) && i < |cycles| && p in states[0] && Overdue(states[0][p], cycles[i])
    ensures Track(nexts, p, i + 1).Some? ==> Moves(nexts, p, i) == 0 && Moves(nexts, p, i + 1) == 1
  {
    NeverPromotedDemotedOnce(states, cycles, nexts, p, i);
    var before := Track(nexts, p, i);
    if before.Some? {
      EffectOf(states, cycles, nexts, i, before.value);
      assert Days(states[i][before.value], cycles[i].now) == Days(states[0][p], cycles[i].now);
    }
  }

  /** Two cycles, however far apart, that find a memory past all three thresholds remove it. */
  lemma {:induction false} TwoOverdueCyclesRemove(states: seq<Files>, cycles: seq<Cycle>, nexts: seq<map<Path, Path>>,
                                                  p: Path, i: nat, j: nat, n: nat)
    requires Run(states, cycles, nexts) && i < j < n <= |cycles| && p in states[0]
    requires Overdue(states[0][p], cycles[i]) && Overdue(states[0][p], cycles[j])
    ensures Track(nexts, p, n).None?
  {
    OneOverdueCycle(states, cycles, nexts, p, i);
    OneOverdueCycle(states, cycles, nexts, p, j);
    GoneStaysGone(nexts, p, i + 1, j + 1);
    GoneStaysGone(nexts, p, i + 1, j);
    GoneStaysGone(nexts, p, j + 1, n);
  }

  /** Every file on disk after `n` cycles is one that was there in the beginning. */
  lemma {:induction false} NothingAppears(states: seq<Files>, cycles: seq<Cycle>, nexts: seq<map<Path, Path>>, n: nat,
                                          q: Path) returns (p: Path)
    requires Run(states, cycles, nexts) && n <= |cycles| && q in states[n]
    ensures p in states[0] && Track(nexts, p, n) == Some(q)
  {
    if n == 0 {
      p := q;
    } else {
      assert Effect(states[n-1], states[n-1+1], cycles[n-1], nexts[n-1]);
      var r :| r in nexts[n-1] && nexts[n-1][r] == q;
      p := NothingAppears(states, cycles, nexts, n - 1, r);
    }
  }

  function CorePaths(files: Files): set<Path> {
    set p | p in files && files[p].tier == Core
  }

  lemma {:induction false} PathsCount(q: seq<Item>)
    ensures |PathsOf(q)| <= |q|
  {
    if q != [] {
      PathsCount(q[..|q|-1]);
      assert q == q[..|q|-1] + [q[|q|-1]];
      assert PathsOf(q) == PathsOf(q[..|q|-1]) + {q[|q|-1].path};
    }
  }

  lemma SetSize<T>(a: set<T>, b: set<T>)
    requires a <= b
    ensures |a| <= |b|
  {
    assert b == a + (b - a);
  }

  /** After a cycle the core memories fit the capacity. */
  lemma CoreFits(files: Files, files': Files, c: Cycle)
    requires RunStep(files, files', c)
    ensures |CorePaths(files')| <= c.config.coreCapacity
  {
    var kept := CoreKept(Listing(files), c.now, c.config);
    forall p | p in CorePaths(files') ensures p in PathsOf(kept) {
      CoreFileWasKept(files, files', c, p);
      assert Item(files'[p], p).path == p;
    }
    CapacityIsMet(Listing(files), c.now, c.config);
    PathsCount(kept);
    SetSize(CorePaths(files'), PathsOf(kept));
  }

  lemma CoreFileWasKept(files: Files, files': Files, c: Cycle, p: Path)
    requires RunStep(files, files', c) && p in files' && files'[p].tier == Core
    ensures Item(files'[p], p) in CoreKept(Listing(files), c.now, c.config)
  {
    var items := Listing(files);
    var r := NextIsOnto(files, files', c, p);
    FateIsExact(files, files', c.now, c.config, c.names, r);
    var x := Item(files[p], p);
    ListingMembers(files, x);
    KeptCore(items, c.now, c.config, x);
  }

  lemma KeptCore(items: seq<Item>, now: int, config: Config, x: Item)
    requires x in items && x !in Demoting(items, now, config) && x.memory.tier == Core
    ensures x in CoreKept(items, now, config)
  {
    FateByAge(items, now, config, x);
    SelectMembers(items, Journal, false, now, config);
    SelectMembers(items, Consolidated, false, now, config);
  }

  // ----- merging what consolidation returns -----

  /** The file that a title stands for in a folder: the last one listed. */
  function ByTitle(items: seq<Item>): map<string, Path> {
    if items == [] then map[] else
      ByTitle(items[..|items|-1])[items[|items|-1].memory.title := items[|items|-1].path]
  }

  ghost function Existing(files: Files, tier: Tier): map<string, Path> {
    ByTitle(Folder(files, tier))
  }

  lemma {:induction false} ByTitleMeans(items: seq<Item>)
    ensures forall t :: t in ByTitle(items) <==> exists x :: x in items && x.memory.title == t
    ensures forall t :: t in ByTitle(items) ==>
          exists x :: x in items && x.memory.title == t && x.path == ByTitle(items)[t]
  {
    if items != [] {
      var x, rest := items[|items|-1], items[..|items|-1];
      ByTitleMeans(rest);
      assert items == rest + [x] && x in items;
      forall t ensures t in ByTitle(items) <==> exists x :: x in items && x.memory.title == t {
        if y :| y in rest && y.memory.title == t { assert y in items; }
      }
      forall t | t in ByTitle(items)
        ensures exists x :: x in items && x.memory.title == t && x.path == ByTitle(items)[t]
      {
        if t != x.memory.title {
          var y :| y in rest && y.memory.title == t && y.path == ByTitle(rest)[t];
          assert y in items;
        }
      }
    }
  }

  ghost predicate AllFresh(files: Files, names: seq<string>) {
    Names.NoDuplicates(names) && forall n, tier :: n in names ==> Path(tier, n) !in files
  }

  predicate Replaced(existing: map<string, Path>, entries: seq<Memory>, p: Path) {
    exists i :: 0 <= i < |entries| && Replaces(existing, entries[i], p)
  }

  predicate Replaces(existing: map<string, Path>, m: Memory, p: Path) {
    m.title in existing && existing[m.title] == p
  }

  predicate IsEntry(entries: seq<Memory>, names: seq<string>, p: Path)
    requires |entries| <= |names|
  {
    exists i :: 0 <= i < |entries| && p == Path(entries[i].tier, names[i])
  }

  /** The files with the same title as an entry are gone, the entries are there, and nothing else has changed. */
  ghost predicate Merged(files: Files, files': Files, existing: map<string, Path>, entries: seq<Memory>,
                         names: seq<string>) {
    && |entries| <= |names|
    && (forall p :: MergedAt(files, files', existing, entries, names, p))
    && (forall i :: 0 <= i < |entries| ==> Written(files', entries[i], names[i]))
  }

  predicate MergedAt(files: Files, files': Files, existing: map<string, Path>, entries: seq<Memory>, names: seq<string>,
                     p: Path)
    requires |entries| <= |names|
  {
    && (p in files' <==> (p in files && !Replaced(existing, entries, p)) || IsEntry(entries, names, p))
    && (p in files && p in files' ==> files'[p] == files[p])
  }

  /** Entry `k` asks for a file to be deleted that an earlier entry has deleted: the merge stops with an error. */
  predicate Repeats(existing: map<string, Path>, entries: seq<Memory>, k: nat)
    requires k < |entries|
  {
    entries[k].title in existing && exists j :: 0 <= j < k && entries[j].title == entries[k].title
  }

  /** Such merges exist: two entries with one title that is on disk, whatever else there is. */
  lemma {:induction false} SameTitleTwiceStops(files: Files, tier: Tier, p: Path, entries: seq<Memory>, j: nat, k: nat)
    requires p in files && p.folder == tier && j < k < |entries|
    requires entries[j].title == files[p].title == entries[k].title
    ensures Repeats(Existing(files, tier), entries, k)
  {
    FolderMembers(files, tier, Item(files[p], p));
    ByTitleMeans(Folder(files, tier));
  }

  /** For instance one file and two entries that both replace it: the first is written, the second is lost. */
  lemma TwoForOneFile(m: Memory, stem: string)
    ensures var files, tier := map[Path(m.tier, stem) := m], m.tier;
            !Repeats(Existing(files, tier), [m, m], 0) && Repeats(Existing(files, tier), [m, m], 1)
  {
    var p := Path(m.tier, stem);
    SameTitleTwiceStops(map[p := m], m.tier, p, [m, m], 0, 1);
  }

  /** No title is lost, whether the merge goes through or stops half-way. */
  lemma {:induction false} MergeLosesNoTitle(files: Files, files': Files, tier: Tier, entries: seq<Memory>,
                                             names: seq<string>, p: Path)
    requires Merged(files, files', Existing(files, tier), entries, names) && p in files
    ensures exists q :: q in files' && files'[q].title == files[p].title
    ensures p.folder != tier || (forall i :: 0 <= i < |entries| ==> entries[i].title != files[p].title)
            ==> p in files' && files'[p] == files[p]
  {
    var existing := Existing(files, tier);
    ByTitleMeans(Folder(files, tier));
    assert MergedAt(files, files', existing, entries, names, p);
    if Replaced(existing, entries, p) {
      var i :| 0 <= i < |entries| && Replaces(existing, entries[i], p);
      var x :| x in Folder(files, tier) && x.memory.title == entries[i].title && x.path == p;
      FolderMembers(files, tier, x);
      assert Written(files', entries[i], names[i]);
      assert files'[Path(entries[i].tier, names[i])].title == files[p].title;
    }
  }

  class Memories {
    var files: Files
    var log: seq<Event>

    constructor (files: Files)
      ensures this.files == files && log == []
    {
      this.files, log := files, [];
    }

    /** The sorted contents of one folder. */
    method Load(tier: Tier) returns (items: seq<Item>)
      ensures items == Folder(files, tier)
    {
      var stems := Names.SortSet(Stems(files, tier));
      items := [];
      for i := 0 to |stems|
        invariant forall s :: s in stems <==> s in Stems(files, tier)
        invariant AllThere(files, tier, stems[..i]) && items == Loaded(files, tier, stems[..i])
      {
        StemIsThere(files, tier, stems[i]);
        LoadedSnoc(files, tier, stems, i);
        items := items + [Item(files[Path(tier, stems[i])], Path(tier, stems[i]))];
      }
      assert stems[..|stems|] == stems;
    }

    method WriteMemory(m: Memory, stem: string)
      modifies this`files
      ensures files == old(files)[Path(m.tier, stem) := m]
    {
      files := files[Path(m.tier, stem) := m];
    }

    method Unlink(p: Path)
      modifies this`files
      ensures files == old(files) - {p}
    {
      files := files - {p};
    }

    /** The paths on record for the titles of one folder. */
    method FindExisting(tier: Tier) returns (existing: map<string, Path>)
      ensures existing == Existing(files, tier)
    {
      var items := Load(tier);
      existing := map[];
      for i := 0 to |items|
        invariant existing == ByTitle(items[..i])
      {
        assert items[..i+1][..i] == items[..i];
        existing := existing[items[i].memory.title := items[i].path];
      }
      assert items[..|items|] == items;
    }

    /** Step 7 for one folder. `done` counts the entries written before the merge stopped. */
    method MergeTier(tier: Tier, entries: seq<Memory>, names: seq<string>) returns (done: nat)
      requires |names| == |entries| && AllFresh(files, names)
      modifies this`files
      ensures done <= |entries|
      ensures Merged(old(files), files, Existing(old(files), tier), entries[..done], names)
      ensures forall k :: 0 <= k < done ==> !Repeats(Existing(old(files), tier), entries, k)
      ensures done < |entries| ==> Repeats(Existing(old(files), tier), entries, done)
    {
      ghost var files0 := files;
      var existing := FindExisting(tier);
      done := 0;
      while done < |entries|
        invariant done <= |entries| && existing == Existing(files0, tier)
        invariant Merged(files0, files, existing, entries[..done], names)
        invariant forall k :: 0 <= k < done ==> !Repeats(existing, entries, k)
      {
        MissingMeansRepeat(files0, files, tier, entries, names, done);
        ExistingOnDisk(files0, tier);
        MergedStep(files0, files, existing, entries, names, done);
        var ok := WriteEntry(existing, entries[done], names[done]);
        if !ok {
          return;
        }
        done := done + 1;
      }
    }

    /** One entry: the file of the same title goes, if there is one on record, and the entry is written. */
    method WriteEntry(existing: map<string, Path>, m: Memory, name: string) returns (ok: bool)
      modifies this`files
      ensures ok <==> (m.title in existing ==> existing[m.title] in old(files))
      ensures files == if ok then AfterEntry(old(files), existing, m, name) else old(files)
    {
      if m.title in existing {
        if existing[m.title] !in files {
          return false;
        }
        Unlink(existing[m.title]);
      }
      WriteMemory(m, name);
      ok := true;
    }

    /** Step 8: one cycle of decay. */
    method DecayCycle(now: int, config: Config, names: seq<string>) returns (expired: nat, demoted: nat)
      requires FreshNames(files, names) && |Demoting(Listing(files), now, config)| <= |names|
      modifies this
      ensures Cycled(old(files), files, now, config, names)
      ensures expired == |Expiring(Listing(old(files)), now, config)|
      ensures demoted == |Demoting(Listing(old(files)), now, config)|
      ensures old(log) <= log
      ensures multiset(log[|old(log)|..]) ==
              ExpiryEvents(Expiring(Listing(old(files)), now, config), now)
              + DemotionEvents(Demoting(Listing(old(files)), now, config), now)
              + FadeEvents(Kept(Listing(old(files)), now, config), now, config)
    {
      ghost var files0 := files;
      var journals := Load(Journal);
      var consolidated := Load(Consolidated);
      var core := Load(Core);
      var result := ApplyDecay(journals + consolidated + core, now, config);
      ghost var gone, down := Expiring(Listing(files0), now, config), Demoting(Listing(files0), now, config);
      DecidedOnDisk(files0, now, config);
      RemoveExpired(result.expirations);
      MoveDemoted(files0, gone, down, result.demotions, names);
      expired, demoted := |result.expirations|, |result.demotions|;
      LoweredAt(down);
      log := log + result.events;
    }

    method RemoveExpired(expirations: seq<Item>)
      modifies this`files
      ensures files == old(files) - PathsOf(expirations)
    {
      ghost var files0 := files;
      for i := 0 to |expirations|
        invariant files == files0 - PathsOf(expirations[..i])
      {
        PathsSnoc(expirations, i);
        if expirations[i].path in files {
          Unlink(expirations[i].path);
        }
      }
      assert expirations[..|expirations|] == expirations;
    }

    method MoveDemoted(ghost files0: Files, ghost gone: seq<Item>, ghost down: seq<Item>, demotions: seq<Item>,
                       names: seq<string>)
      requires files == files0 - PathsOf(gone) && FreshNames(files0, names) && |down| <= |names|
      requires demotions == AllLowered(down) && forall x :: x in down ==> OnDisk(files0, x)
      modifies this`files
      ensures Moved(files0, files, gone, down, names)
    {
      LoweredAt(down);
      for i := 0 to |demotions|
        invariant Moved(files0, files, gone, down[..i], names)
      {
        assert down[i] in down && down[..i+1] == down[..i] + [down[i]];
        MovedSnoc(files0, files, gone, down[..i], names, down[i]);
        MoveOne(demotions[i], names[i]);
      }
      assert down[..|down|] == down;
    }

    method MoveOne(x: Item, name: string)
      modifies this`files
      ensures files == old(files)[Path(x.memory.tier, name) := x.memory] - {x.path}
    {
      WriteMemory(x.memory, name);
      if x.path in files {
        Unlink(x.path);
      }
    }
  }

  lemma {:induction false} LoweredAt(q: seq<Item>)
    ensures |AllLowered(q)| == |q| && forall i :: 0 <= i < |q| ==> AllLowered(q)[i] == Lowered(q[i])
  {
    if q != [] { LoweredAt(q[..|q|-1]); }
  }

  lemma PathsSnoc(q: seq<Item>, i: nat)
    requires i < |q|
    ensures PathsOf(q[..i+1]) == PathsOf(q[..i]) + {q[i].path}
  {
    assert q[..i+1] == q[..i] + [q[i]];
  }

  /** The file of an entry's title is missing exactly when an earlier entry had the same title. */
  lemma MissingMeansRepeat(files: Files, files': Files, tier: Tier, entries: seq<Memory>, names: seq<string>, n: nat)
    requires n < |entries| == |names| && AllFresh(files, names)
    requires Merged(files, files', Existing(files, tier), entries[..n], names)
    ensures var existing, m := Existing(files, tier), entries[n];
            Repeats(existing, entries, n) <==> m.title in existing && existing[m.title] !in files'
  {
    var existing, m := Existing(files, tier), entries[n];
    if m.title in existing {
      ByTitleMeans(Folder(files, tier));
      var p := existing[m.title];
      var x :| x in Folder(files, tier) && x.memory.title == m.title && x.path == p;
      FolderMembers(files, tier, x);
      NotAnEntry(files, entries[..n], names, p);
      assert MergedAt(files, files', existing, entries[..n], names, p);
      if Replaced(existing, entries[..n], p) {
        var j :| 0 <= j < n && Replaces(existing, entries[..n][j], p);
        var y :| y in Folder(files, tier) && y.memory.title == entries[j].title && y.path == p;
        FolderMembers(files, tier, y);
      }
      if Repeats(existing, entries, n) {
        var j :| 0 <= j < n && entries[j].title == m.title;
        assert Replaces(existing, entries[..n][j], p);
      }
    }
  }

  lemma NotAnEntry(files: Files, entries: seq<Memory>, names: seq<string>, p: Path)
    requires |entries| <= |names| && AllFresh(files, names) && p in files
    ensures !IsEntry(entries, names, p)
  {
    forall i | 0 <= i < |entries| ensures p != Path(entries[i].tier, names[i]) {
      assert names[i] in names;
    }
  }

  function AfterEntry(files: Files, existing: map<string, Path>, m: Memory, name: string): Files {
    (if m.title in existing then files - {existing[m.title]} else files)[Path(m.tier, name) := m]
  }

  lemma ExistingOnDisk(files: Files, tier: Tier)
    ensures forall t :: t in Existing(files, tier) ==> Existing(files, tier)[t] in files
  {
    forall t | t in Existing(files, tier) ensures Existing(files, tier)[t] in files {
      ByTitleMeans(Folder(files, tier));
      var x :| x in Folder(files, tier) && x.memory.title == t && x.path == Existing(files, tier)[t];
      FolderMembers(files, tier, x);
    }
  }

  lemma EntriesSnoc(existing: map<string, Path>, entries: seq<Memory>, names: seq<string>, n: nat, p: Path)
    requires n < |entries| == |names|
    ensures Replaced(existing, entries[..n+1], p) <==>
          Replaced(existing, entries[..n], p) || Replaces(existing, entries[n], p)
    ensures IsEntry(entries[..n+1], names, p) <==>
          IsEntry(entries[..n], names, p) || p == Path(entries[n].tier, names[n])
  {
    var more := entries[..n+1];
    assert more[n] == entries[n] && forall i :: 0 <= i < n ==> more[i] == entries[..n][i];
    if Replaced(existing, entries[..n], p) {
      var i :| 0 <= i < n && Replaces(existing, entries[..n][i], p);
      assert Replaces(existing, more[i], p);
    }
    if IsEntry(entries[..n], names, p) {
      var i :| 0 <= i < n && p == Path(entries[..n][i].tier, names[i]);
      assert p == Path(more[i].tier, names[i]);
    }
  }

  lemma MergedStep(files: Files, files': Files, existing: map<string, Path>, entries: seq<Memory>, names: seq<string>,
                   n: nat)
    requires n < |entries| == |names| && AllFresh(files, names)
    requires Merged(files, files', existing, entries[..n], names)
    requires forall t :: t in existing ==> existing[t] in files
    ensures Merged(files, AfterEntry(files', existing, entries[n], names[n]), existing, entries[..n+1], names)
  {
    var m, q := entries[n], Path(entries[n].tier, names[n]);
    var next := AfterEntry(files', existing, m, names[n]);
    var more := entries[..n+1];
    forall p ensures MergedAt(files, next, existing, more, names, p) {
      MergedAtStep(files, files', existing, entries, names, n, p);
    }
    forall i | 0 <= i < n + 1 ensures Written(next, more[i], names[i]) {
      if i < n { WrittenStep(files, files', existing, entries, names, n, i); }
    }
  }

  lemma MergedAtStep(files: Files, files': Files, existing: map<string, Path>, entries: seq<Memory>, names: seq<string>,
                     n: nat, p: Path)
    requires n < |entries| == |names| && AllFresh(files, names)
    requires MergedAt(files, files', existing, entries[..n], names, p)
    requires forall t :: t in existing ==> existing[t] in files
    ensures MergedAt(files, AfterEntry(files', existing, entries[n], names[n]), existing, entries[..n+1], names, p)
  {
    EntriesSnoc(existing, entries, names, n, p);
    assert names[n] in names;
    if p in files { NotAnEntry(files, entries[..n+1], names, p); }
  }

  lemma WrittenStep(files: Files, files': Files, existing: map<string, Path>, entries: seq<Memory>, names: seq<string>,
                    n: nat, i: nat)
    requires i < n < |entries| == |names| && AllFresh(files, names)
    requires Written(files', entries[..n][i], names[i])
    requires forall t :: t in existing ==> existing[t] in files
    ensures Written(AfterEntry(files', existing, entries[n], names[n]), entries[..n+1][i], names[i])
  {
    assert names[i] in names && names[i] != names[n];
    assert Path(entries[i].tier, names[i]) !in files;
  }
}
