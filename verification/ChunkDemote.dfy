/** Demoting a cross-repository chunk: a protocol that is re-run after a stop. */
module ChunkDemote {
  import Symbols
  import TextLines
  import opened Options

  // ----- documents -----

  datatype CodeRef = Keyed(ref: string, other: string) | Bare(ref: string) | Foreign(other: string)

  /** Parsed frontmatter; `rest` is every key that demotion does not touch. */
  datatype Header = Header(codePaths: seq<string>, codeReferences: seq<CodeRef>, dependents: Option<seq<string>>,
                           rest: string)

  datatype Doc = Doc(header: Option<Header>, body: string)

  function StripProjectPrefix(value: string, orgRepo: string): string {
    var prefix := orgRepo + "::";
    if prefix <= value then value[|prefix|..] else value
  }

  function StripPaths(paths: seq<string>, orgRepo: string): seq<string> {
    seq(|paths|, i requires 0 <= i < |paths| => StripProjectPrefix(paths[i], orgRepo))
  }

  function StripRef(r: CodeRef, orgRepo: string): CodeRef {
    match r
    case Keyed(ref, other) => Keyed(StripProjectPrefix(ref, orgRepo), other)
    case Bare(ref) => Bare(StripProjectPrefix(ref, orgRepo))
    case Foreign(_) => r
  }

  function StripRefs(refs: seq<CodeRef>, orgRepo: string): seq<CodeRef> {
    seq(|refs|, i requires 0 <= i < |refs| => StripRef(refs[i], orgRepo))
  }

  /** `rewrite_chunk_frontmatter`. */
  function Rewrite(doc: Doc, orgRepo: string): Doc {
    match doc.header
    case None => doc
    case Some(h) =>
      doc.(header := Some(h.(codePaths := StripPaths(h.codePaths, orgRepo),
                             codeReferences := StripRefs(h.codeReferences, orgRepo), dependents := None)))
  }

  function RewriteFile(doc: Option<Doc>, orgRepo: string): Option<Doc> {
    if doc.None? then None else Some(Rewrite(doc.value, orgRepo))
  }

  // ----- what a rewrite changes, and what it leaves -----

  /** `y` is `x` without the prefix, if `x` has it, and `x` itself otherwise. */
  predicate StrippedName(x: string, y: string, orgRepo: string) {
    if orgRepo + "::" <= x then x == orgRepo + "::" + y else y == x
  }

  predicate StrippedRef(a: CodeRef, b: CodeRef, orgRepo: string) {
    match a
    case Keyed(ref, other) => b.Keyed? && b.other == other && StrippedName(ref, b.ref, orgRepo)
    case Bare(ref) => b.Bare? && StrippedName(ref, b.ref, orgRepo)
    case Foreign(_) => b == a
  }

  predicate StrippedHeader(a: Header, b: Header, orgRepo: string) {
    && b.rest == a.rest && b.dependents == None
    && |b.codePaths| == |a.codePaths| && |b.codeReferences| == |a.codeReferences|
    && (forall i :: 0 <= i < |a.codePaths| ==> StrippedName(a.codePaths[i], b.codePaths[i], orgRepo))
    && (forall i :: 0 <= i < |a.codeReferences| ==> StrippedRef(a.codeReferences[i], b.codeReferences[i], orgRepo))
  }

  /** The same text, and the same frontmatter but for prefixes, which are gone, and `dependents`, which is not there. */
  predicate StrippedDoc(a: Doc, b: Doc, orgRepo: string) {
    && b.body == a.body && (b.header.Some? <==> a.header.Some?)
    && (a.header.Some? ==> StrippedHeader(a.header.value, b.header.value, orgRepo))
  }

  predicate StrippedFile(a: Option<Doc>, b: Option<Doc>, orgRepo: string) {
    (b.Some? <==> a.Some?) && (a.Some? ==> StrippedDoc(a.value, b.value, orgRepo))
  }

  lemma StrippedNameIs(x: string, y: string, orgRepo: string)
    ensures StrippedName(x, y, orgRepo) <==> y == StripProjectPrefix(x, orgRepo)
  {
    var prefix := orgRepo + "::";
    if prefix <= x { assert x == prefix + x[|prefix|..]; }
    if x == prefix + y { assert (prefix + y)[|prefix|..] == y; }
  }

  lemma StrippedRefIs(a: CodeRef, b: CodeRef, orgRepo: string)
    ensures StrippedRef(a, b, orgRepo) <==> b == StripRef(a, orgRepo)
  {
    if !a.Foreign? && !b.Foreign? { StrippedNameIs(a.ref, b.ref, orgRepo); }
  }

  lemma StrippedHeaderIs(a: Header, b: Header, orgRepo: string)
    ensures StrippedHeader(a, b, orgRepo) <==>
              b == a.(codePaths := StripPaths(a.codePaths, orgRepo),
                      codeReferences := StripRefs(a.codeReferences, orgRepo), dependents := None)
  {
    var paths, refs := StripPaths(a.codePaths, orgRepo), StripRefs(a.codeReferences, orgRepo);
    forall i | 0 <= i < |a.codePaths| && i < |b.codePaths|
      ensures StrippedName(a.codePaths[i], b.codePaths[i], orgRepo) <==> b.codePaths[i] == paths[i]
    {
      StrippedNameIs(a.codePaths[i], b.codePaths[i], orgRepo);
    }
    forall i | 0 <= i < |a.codeReferences| && i < |b.codeReferences|
      ensures StrippedRef(a.codeReferences[i], b.codeReferences[i], orgRepo) <==> b.codeReferences[i] == refs[i]
    {
      StrippedRefIs(a.codeReferences[i], b.codeReferences[i], orgRepo);
    }
    if StrippedHeader(a, b, orgRepo) {
      assert b.codePaths == paths && b.codeReferences == refs;
    }
  }

  /** A rewrite changes just that: the only outcome that is the document stripped. */
  lemma {:induction false} RewriteStrips(doc: Option<Doc>, after: Option<Doc>, orgRepo: string)
    ensures StrippedFile(doc, after, orgRepo) <==> after == RewriteFile(doc, orgRepo)
  {
    if doc.Some? && after.Some? && doc.value.header.Some? && after.value.header.Some? {
      StrippedHeaderIs(doc.value.header.value, after.value.header.value, orgRepo);
    }
  }

  predicate Doubled(value: string, orgRepo: string) {
    (orgRepo + "::") + (orgRepo + "::") <= value
  }

  lemma DoubledMeans(value: string, prefix: string)
    ensures prefix + prefix <= value <==> prefix <= value && prefix <= value[|prefix|..]
  {
    if prefix <= value && prefix <= value[|prefix|..] {
      var rest := value[|prefix|..];
      assert value == prefix + rest && rest == prefix + rest[|prefix|..];
      assert value == (prefix + prefix) + rest[|prefix|..];
    }
    if prefix + prefix <= value {
      var tail := value[|prefix + prefix|..];
      assert value == (prefix + prefix) + tail;
      assert value == prefix + (prefix + tail);
    }
  }

  /** Stripping twice is stripping once, exactly when the value does not carry the prefix twice. */
  lemma {:induction false} StripTwice(value: string, orgRepo: string)
    ensures StripProjectPrefix(StripProjectPrefix(value, orgRepo), orgRepo) == StripProjectPrefix(value, orgRepo)
      <==> !Doubled(value, orgRepo)
  {
    var prefix := orgRepo + "::";
    DoubledMeans(value, prefix);
    if Doubled(value, orgRepo) {
      var rest := value[|prefix|..];
      assert |rest[|prefix|..]| < |rest|;
    }
  }

  predicate HeaderDoubled(h: Header, orgRepo: string) {
    (exists i :: 0 <= i < |h.codePaths| && Doubled(h.codePaths[i], orgRepo))
    || exists i :: 0 <= i < |h.codeReferences| && !h.codeReferences[i].Foreign?
                   && Doubled(h.codeReferences[i].ref, orgRepo)
  }

  predicate FileDoubled(doc: Option<Doc>, orgRepo: string) {
    doc.Some? && doc.value.header.Some? && HeaderDoubled(doc.value.header.value, orgRepo)
  }

  lemma PathsTwice(paths: seq<string>, orgRepo: string)
    ensures StripPaths(StripPaths(paths, orgRepo), orgRepo) == StripPaths(paths, orgRepo)
      <==> forall i :: 0 <= i < |paths| ==> !Doubled(paths[i], orgRepo)
  {
    var once := StripPaths(paths, orgRepo);
    var twice := StripPaths(once, orgRepo);
    forall i | 0 <= i < |paths| ensures twice[i] == once[i] <==> !Doubled(paths[i], orgRepo) {
      StripTwice(paths[i], orgRepo);
    }
    if twice == once {
      assert forall i :: 0 <= i < |paths| ==> twice[i] == once[i];
    }
  }

  lemma RefsTwice(refs: seq<CodeRef>, orgRepo: string)
    ensures StripRefs(StripRefs(refs, orgRepo), orgRepo) == StripRefs(refs, orgRepo)
      <==> forall i :: 0 <= i < |refs| && !refs[i].Foreign? ==> !Doubled(refs[i].ref, orgRepo)
  {
    var once := StripRefs(refs, orgRepo);
    var twice := StripRefs(once, orgRepo);
    forall i | 0 <= i < |refs|
      ensures twice[i] == once[i] <==> refs[i].Foreign? || !Doubled(refs[i].ref, orgRepo)
    {
      if !refs[i].Foreign? { StripTwice(refs[i].ref, orgRepo); }
    }
    if twice == once {
      assert forall i :: 0 <= i < |refs| ==> twice[i] == once[i];
    }
  }

  /** A rewrite is idempotent exactly when no path and no reference carries the prefix twice. */
  lemma {:induction false} RewriteTwice(doc: Option<Doc>, orgRepo: string)
    ensures RewriteFile(RewriteFile(doc, orgRepo), orgRepo) == RewriteFile(doc, orgRepo)
      <==> !FileDoubled(doc, orgRepo)
  {
    if doc.Some? && doc.value.header.Some? {
      PathsTwice(doc.value.header.value.codePaths, orgRepo);
      RefsTwice(doc.value.header.value.codeReferences, orgRepo);
    }
  }

  // ----- scope -----

  predicate Offending(path: string, targetRepo: string) {
    Symbols.ColonsFromFinds(path, 0);
    var colons := Symbols.FindColons(path);
    colons != -1 && TextLines.AfterLastSlash(path[..colons]) != targetRepo
  }

  /** The first "::" of the path stands at `k`. */
  predicate FirstColons(path: string, k: nat) {
    && k < |path| - 1 && path[k] == ':' && path[k+1] == ':'
    && forall j :: 0 <= j < k ==> !(path[j] == ':' && path[j+1] == ':')
  }

  /** Qualified, and what stands in front of the first "::" does not end in the repository's name. */
  lemma OffendingIff(path: string, targetRepo: string)
    ensures Offending(path, targetRepo) <==>
              exists k: nat :: FirstColons(path, k) && !TextLines.EndsInName(path[..k], targetRepo)
  {
    Symbols.ColonsFromFinds(path, 0);
    var colons := Symbols.FindColons(path);
    forall k: nat | FirstColons(path, k) ensures k == colons {
      assert Symbols.ColonsAt(path, k);
    }
    if colons != -1 {
      TextLines.AfterLastSlashIff(path[..colons], targetRepo);
      forall j | 0 <= j < colons ensures !(path[j] == ':' && path[j+1] == ':') {
        assert !Symbols.ColonsAt(path, j);
      }
      assert FirstColons(path, colons);
    } else {
      forall k: nat ensures !FirstColons(path, k) {
        assert !Symbols.ColonsAt(path, k);
      }
    }
  }

  /** The offending paths in the order of the list, repeats included. */
  function Offenders(codePaths: seq<string>, targetRepo: string): seq<string> {
    if codePaths == [] then [] else
      var last := codePaths[|codePaths|-1];
      Offenders(codePaths[..|codePaths|-1], targetRepo) + if Offending(last, targetRepo) then [last] else []
  }

  method ValidateChunkScope(codePaths: seq<string>, targetRepo: string) returns (offenders: seq<string>)
    ensures offenders == Offenders(codePaths, targetRepo)
    ensures forall p :: p in offenders <==> p in codePaths && Offending(p, targetRepo)
  {
    offenders := [];
    for i := 0 to |codePaths|
      invariant offenders == Offenders(codePaths[..i], targetRepo)
      invariant forall p :: p in offenders <==> p in codePaths[..i] && Offending(p, targetRepo)
    {
      assert codePaths[..i+1] == codePaths[..i] + [codePaths[i]];
      assert codePaths[..i+1][..i] == codePaths[..i];
      if Offending(codePaths[i], targetRepo) {
        offenders := offenders + [codePaths[i]];
      }
    }
    assert codePaths[..|codePaths|] == codePaths;
  }

  // ----- the directories of one chunk -----

  datatype Dir = Dir(goal: Option<Doc>, plan: Option<Doc>, external: bool)

  predicate IsPointer(d: Dir) {
    d.external && d.goal.None?
  }

  /** docs/chunks/<name> in the architecture repository and in each accessible project. */
  datatype World = World(arch: Option<Dir>, dirs: map<string, Dir>)

  /** The target, the projects that work together, and the repositories that can be reached. */
  datatype Setup = Setup(target: string, projects: set<string>, accessible: set<string>)

  predicate HasContent(w: World, p: string) {
    p in w.dirs && w.dirs[p].goal.Some?
  }

  /** The repositories that the architecture chunk names as dependents. */
  function Dependents(w: World): set<string> {
    if w.arch.Some? && w.arch.value.goal.Some? && w.arch.value.goal.value.header.Some?
       && w.arch.value.goal.value.header.value.dependents.Some?
    then set r | r in w.arch.value.goal.value.header.value.dependents.value
    else {}
  }

  function ScanSet(w: World, s: Setup): set<string> {
    (Dependents(w) + s.projects - {s.target}) * s.accessible
  }

  function CodePaths(w: World): seq<string> {
    if w.arch.Some? && w.arch.value.goal.Some? && w.arch.value.goal.value.header.Some?
    then w.arch.value.goal.value.header.value.codePaths
    else []
  }

  /** Steps 2 to 5 let the demotion through. */
  predicate Passes(w: World, s: Setup) {
    && (w.arch.Some? || HasContent(w, s.target))
    && (forall p :: p in ScanSet(w, s) ==> !HasContent(w, p))
    && (w.arch.Some? ==> forall q :: q in CodePaths(w) ==> !Offending(q, TextLines.AfterLastSlash(s.target)))
  }

  // ----- the steps that change the filesystem -----

  datatype Op =
    | Unlink  // external.yaml of the target
    | MakeDir
    | CopyGoal
    | CopyPlan
    | RewriteGoal
    | RewritePlan
    | RemovePointer(project: string)
    | RemoveArch

  function TargetDir(w: World, s: Setup): Dir {
    if s.target in w.dirs then w.dirs[s.target] else Dir(None, None, false)
  }

  function SetTarget(w: World, s: Setup, d: Dir): World {
    w.(dirs := w.dirs[s.target := d])
  }

  function Apply(w: World, s: Setup, op: Op): World {
    match op
    case Unlink => if s.target in w.dirs then SetTarget(w, s, w.dirs[s.target].(external := false)) else w
    case MakeDir => SetTarget(w, s, TargetDir(w, s))
    case CopyGoal =>
      if w.arch.Some? && w.arch.value.goal.Some?
      then SetTarget(w, s, TargetDir(w, s).(goal := w.arch.value.goal)) else w
    case CopyPlan =>
      if w.arch.Some? && w.arch.value.plan.Some?
      then SetTarget(w, s, TargetDir(w, s).(plan := w.arch.value.plan)) else w
    case RewriteGoal =>
      if s.target in w.dirs
      then SetTarget(w, s, w.dirs[s.target].(goal := RewriteFile(w.dirs[s.target].goal, s.target))) else w
    case RewritePlan =>
      if s.target in w.dirs
      then SetTarget(w, s, w.dirs[s.target].(plan := RewriteFile(w.dirs[s.target].plan, s.target))) else w
    case RemovePointer(p) => if p in w.dirs && IsPointer(w.dirs[p]) then w.(dirs := w.dirs - {p}) else w
    case RemoveArch => w.(arch := None)
  }

  function Fold<S, O>(w: S, ops: seq<O>, f: (S, O) -> S): S {
    if ops == [] then w else f(Fold(w, ops[..|ops|-1], f), ops[|ops|-1])
  }

  function Applier(s: Setup): (World, Op) -> World {
    (w, op) => Apply(w, s, op)
  }

  function ApplyAll(w: World, s: Setup, ops: seq<Op>): World {
    Fold(w, ops, Applier(s))
  }

  function Removals(order: seq<string>): seq<Op> {
    seq(|order|, i requires 0 <= i < |order| => RemovePointer(order[i]))
  }

  function Copies(w: World, s: Setup): seq<Op> {
    if HasContent(w, s.target) then [] else [Unlink, MakeDir, CopyGoal, CopyPlan]
  }

  /** What a run does from `w`; `order` is the order in which the scanned projects are visited. */
  function Program(w: World, s: Setup, order: seq<string>): seq<Op> {
    Copies(w, s) + [RewriteGoal, RewritePlan] + Removals(order) + if w.arch.Some? then [RemoveArch] else []
  }

  ghost predicate Visits(w: World, s: Setup, order: seq<string>) {
    forall p :: p in order <==> p in ScanSet(w, s)
  }

  // ----- where a run ends, in one expression -----

  function FinalTarget(w: World, s: Setup): Dir {
    var d := TargetDir(w, s);
    if HasContent(w, s.target) || w.arch.None?
    then Dir(RewriteFile(d.goal, s.target), RewriteFile(d.plan, s.target), d.external)
    else Dir(RewriteFile(if w.arch.value.goal.Some? then w.arch.value.goal else d.goal, s.target),
             RewriteFile(if w.arch.value.plan.Some? then w.arch.value.plan else d.plan, s.target), false)
  }

  function PointersIn(w: World, scan: set<string>): set<string> {
    set p | p in scan && p in w.dirs && IsPointer(w.dirs[p])
  }

  function Pointers(w: World, s: Setup): set<string> {
    PointersIn(w, ScanSet(w, s))
  }

  function Final(w: World, s: Setup): World {
    World(None, (w.dirs - Pointers(w, s))[s.target := FinalTarget(w, s)])
  }

  lemma ApplyConcat(w: World, s: Setup, a: seq<Op>, b: seq<Op>)
    ensures ApplyAll(w, s, a + b) == ApplyAll(ApplyAll(w, s, a), s, b)
  {
    FoldConcat(w, a, b, Applier(s));
  }

  lemma {:induction false} FoldConcat<S, O>(w: S, a: seq<O>, b: seq<O>, f: (S, O) -> S)
    ensures Fold(w, a + b, f) == Fold(Fold(w, a, f), b, f)
  {
    if b == [] {
      assert a + b == a;
    } else {
      assert (a + b)[..|a + b|-1] == a + b[..|b|-1];
      FoldConcat(w, a, b[..|b|-1], f);
    }
  }

  /** `k` operations into two phases. */
  lemma ApplySplit(w: World, s: Setup, a: seq<Op>, b: seq<Op>, k: nat)
    requires k <= |a + b|
    ensures ApplyAll(w, s, (a + b)[..k])
         == if k <= |a| then ApplyAll(w, s, a[..k]) else ApplyAll(ApplyAll(w, s, a), s, b[..k-|a|])
  {
    if k <= |a| {
      assert (a + b)[..k] == a[..k];
    } else {
      assert (a + b)[..k] == a + b[..k-|a|];
      ApplyConcat(w, s, a, b[..k-|a|]);
    }
  }

  lemma ApplyOne(w: World, s: Setup, op: Op)
    ensures ApplyAll(w, s, [op]) == Apply(w, s, op)
  {
    var ops := [op];
    assert ops[..0] == [];
    assert Fold(w, ops[..0], Applier(s)) == w;
  }

  // ----- every state in the middle of a run ends in the same place -----

  /** Nothing that will be rewritten carries its prefix twice, and the architecture chunk has its GOAL. */
  predicate Clean(w: World, s: Setup) {
    && !FileDoubled(TargetDir(w, s).goal, s.target) && !FileDoubled(TargetDir(w, s).plan, s.target)
    && (w.arch.Some? ==>
          && w.arch.value.goal.Some?
          && !FileDoubled(w.arch.value.goal, s.target) && !FileDoubled(w.arch.value.plan, s.target))
  }

  predicate Ready(w: World, s: Setup) {
    Passes(w, s) && Clean(w, s)
  }

  lemma RewrittenIsClean(doc: Option<Doc>, orgRepo: string)
    requires !FileDoubled(doc, orgRepo)
    ensures RewriteFile(RewriteFile(doc, orgRepo), orgRepo) == RewriteFile(doc, orgRepo)
    ensures !FileDoubled(RewriteFile(doc, orgRepo), orgRepo)
  {
    RewriteTwice(doc, orgRepo);
    RewriteTwice(RewriteFile(doc, orgRepo), orgRepo);
  }

  /** The state can still be resumed, and a run from it ends where a run from `w0` ends. */
  ghost predicate SameEnd(w0: World, w: World, s: Setup) {
    Ready(w, s) && Final(w, s) == Final(w0, s)
  }

  lemma TargetOnly(w: World, d: Dir, s: Setup)
    ensures var w' := SetTarget(w, s, d);
            ScanSet(w', s) == ScanSet(w, s) && Pointers(w', s) == Pointers(w, s) && CodePaths(w') == CodePaths(w)
            && (w'.dirs - Pointers(w, s))[s.target := FinalTarget(w', s)]
               == (w.dirs - Pointers(w, s))[s.target := FinalTarget(w', s)]
  {
  }

  lemma UnlinkSameEnd(w: World, s: Setup)
    requires Ready(w, s) && !HasContent(w, s.target)
    ensures SameEnd(w, Apply(w, s, Unlink), s) && !HasContent(Apply(w, s, Unlink), s.target)
    ensures !TargetDir(Apply(w, s, Unlink), s).external
  {
    if s.target in w.dirs { TargetOnly(w, w.dirs[s.target].(external := false), s); }
  }

  lemma MakeDirSameEnd(w: World, s: Setup)
    requires Ready(w, s) && !HasContent(w, s.target)
    ensures SameEnd(w, Apply(w, s, MakeDir), s) && !HasContent(Apply(w, s, MakeDir), s.target)
    ensures TargetDir(Apply(w, s, MakeDir), s) == TargetDir(w, s)
  {
    TargetOnly(w, TargetDir(w, s), s);
  }

  /** The two copies belong together: after both, the end is the same; after the first alone, exactly when the plan
      of the architecture chunk would not have changed the target's plan. */
  lemma {:induction false} CopiesSameEnd(w: World, s: Setup)
    requires Ready(w, s) && !HasContent(w, s.target) && !TargetDir(w, s).external
    ensures var w1 := Apply(w, s, CopyGoal);
            && SameEnd(w, Apply(w1, s, CopyPlan), s) && HasContent(Apply(w1, s, CopyPlan), s.target)
            && Ready(w1, s)
            && (Final(w1, s) == Final(w, s) <==>
                  w.arch.value.plan.None?
                  || RewriteFile(TargetDir(w, s).plan, s.target) == RewriteFile(w.arch.value.plan, s.target))
  {
    var w1 := Apply(w, s, CopyGoal);
    var w2 := Apply(w1, s, CopyPlan);
    TargetOnly(w, TargetDir(w1, s), s);
    TargetOnly(w1, TargetDir(w2, s), s);
    assert w1 == SetTarget(w, s, TargetDir(w1, s));
    assert Final(w1, s).dirs[s.target] == FinalTarget(w1, s) && Final(w, s).dirs[s.target] == FinalTarget(w, s);
    if w.arch.value.plan.Some? {
      assert w2 == SetTarget(w1, s, TargetDir(w2, s));
    }
  }

  lemma RewriteSameEnd(w: World, s: Setup, op: Op)
    requires Ready(w, s) && HasContent(w, s.target) && (op == RewriteGoal || op == RewritePlan)
    ensures SameEnd(w, Apply(w, s, op), s) && HasContent(Apply(w, s, op), s.target)
  {
    RewrittenIsClean(w.dirs[s.target].goal, s.target);
    RewrittenIsClean(w.dirs[s.target].plan, s.target);
    TargetOnly(w, TargetDir(Apply(w, s, op), s), s);
  }

  lemma RemovePointerSameEnd(w: World, s: Setup, p: string)
    requires Ready(w, s) && p in ScanSet(w, s)
    ensures SameEnd(w, Apply(w, s, RemovePointer(p)), s)
    ensures Pointers(Apply(w, s, RemovePointer(p)), s) == Pointers(w, s) - {p}
    ensures HasContent(w, s.target) ==> HasContent(Apply(w, s, RemovePointer(p)), s.target)
  {
    var w' := Apply(w, s, RemovePointer(p));
    assert ScanSet(w', s) == ScanSet(w, s);
    assert Pointers(w', s) == Pointers(w, s) - {p};
    assert w'.dirs - Pointers(w', s) == w.dirs - Pointers(w, s);
  }

  lemma RemoveArchSameEnd(w: World, s: Setup)
    requires Ready(w, s) && HasContent(w, s.target) && Pointers(w, s) == {}
    ensures SameEnd(w, Apply(w, s, RemoveArch), s)
  {
    var w' := Apply(w, s, RemoveArch);
    assert ScanSet(w', s) <= ScanSet(w, s);
    assert Pointers(w', s) == {};
  }

  // ----- whole runs -----

  /** The projects whose pointers are gone after `n` visits. */
  ghost predicate Cleared(w: World, order: seq<string>, n: nat)
    requires n <= |order|
  {
    forall i :: 0 <= i < n ==> !(order[i] in w.dirs && IsPointer(w.dirs[order[i]]))
  }

  lemma {:induction false} RemovalsSameEnd(w: World, s: Setup, order: seq<string>, n: nat)
    requires Ready(w, s) && HasContent(w, s.target) && Visits(w, s, order) && n <= |order|
    ensures var w' := ApplyAll(w, s, Removals(order)[..n]);
            && SameEnd(w, w', s) && HasContent(w', s.target) && w'.arch == w.arch && Cleared(w', order, n)
            && TargetDir(w', s) == TargetDir(w, s)
  {
    if n > 0 {
      RemovalsSameEnd(w, s, order, n - 1);
      var before := ApplyAll(w, s, Removals(order)[..n-1]);
      assert Removals(order)[..n][..n-1] == Removals(order)[..n-1];
      assert ScanSet(before, s) == ScanSet(w, s);
      assert order[n-1] in order;
      RemovePointerSameEnd(before, s, order[n-1]);
    }
  }

  /** `k` operations into the copies, the first phase of a run. */
  lemma {:induction false} CopyPhase(w: World, s: Setup, k: nat)
    requires Ready(w, s) && k <= |Copies(w, s)|
    ensures var w' := ApplyAll(w, s, Copies(w, s)[..k]);
            && Ready(w', s) && w'.arch == w.arch
            && (k == |Copies(w, s)| ==> HasContent(w', s.target))
            && (k != 3 ==> Final(w', s) == Final(w, s))
            && (k == 3 ==> (Final(w', s) == Final(w, s) <==> PlanUnaffected(w, s)))
  {
    if !HasContent(w, s.target) {
      var ops := Copies(w, s);
      var w1 := Apply(w, s, Unlink);
      var w2 := Apply(w1, s, MakeDir);
      var w3 := Apply(w2, s, CopyGoal);
      UnlinkSameEnd(w, s);
      MakeDirSameEnd(w1, s);
      CopiesSameEnd(w2, s);
      assert ops[..1] == [Unlink] && ops[..2] == [Unlink, MakeDir] && ops[..3] == [Unlink, MakeDir, CopyGoal];
      assert ops[..4] == [Unlink, MakeDir, CopyGoal, CopyPlan];
      Unrolled(w, s);
      assert TargetDir(w2, s).plan == TargetDir(w, s).plan;
    }
  }

  lemma Unrolled(w: World, s: Setup)
    ensures ApplyAll(w, s, []) == w && ApplyAll(w, s, [Unlink]) == Apply(w, s, Unlink)
    ensures ApplyAll(w, s, [Unlink, MakeDir]) == Apply(Apply(w, s, Unlink), s, MakeDir)
    ensures ApplyAll(w, s, [Unlink, MakeDir, CopyGoal]) == Apply(Apply(Apply(w, s, Unlink), s, MakeDir), s, CopyGoal)
    ensures ApplyAll(w, s, [Unlink, MakeDir, CopyGoal, CopyPlan])
         == Apply(Apply(Apply(Apply(w, s, Unlink), s, MakeDir), s, CopyGoal), s, CopyPlan)
  {
    ApplyOne(w, s, Unlink);
    ApplyConcat(w, s, [Unlink], [MakeDir]);
    ApplyConcat(w, s, [Unlink, MakeDir], [CopyGoal]);
    ApplyConcat(w, s, [Unlink, MakeDir, CopyGoal], [CopyPlan]);
    assert [Unlink] + [MakeDir] == [Unlink, MakeDir];
    assert [Unlink, MakeDir] + [CopyGoal] == [Unlink, MakeDir, CopyGoal];
    assert [Unlink, MakeDir, CopyGoal] + [CopyPlan] == [Unlink, MakeDir, CopyGoal, CopyPlan];
    ApplyOne(Apply(w, s, Unlink), s, MakeDir);
    ApplyOne(Apply(Apply(w, s, Unlink), s, MakeDir), s, CopyGoal);
    ApplyOne(Apply(Apply(Apply(w, s, Unlink), s, MakeDir), s, CopyGoal), s, CopyPlan);
  }

  /** The plan of the architecture chunk would not change the target's plan: there is none, or it is there already. */
  predicate PlanUnaffected(w: World, s: Setup) {
    w.arch.None? || w.arch.value.plan.None?
    || RewriteFile(TargetDir(w, s).plan, s.target) == RewriteFile(w.arch.value.plan, s.target)
  }

  lemma {:induction false} RewritePhase(w: World, s: Setup, k: nat)
    requires Ready(w, s) && HasContent(w, s.target) && k <= 2
    ensures var w' := ApplyAll(w, s, [RewriteGoal, RewritePlan][..k]);
            && SameEnd(w, w', s) && HasContent(w', s.target) && w'.arch == w.arch
            && (k == 2 ==> TargetDir(w', s) == FinalTarget(w, s))
  {
    var ops := [RewriteGoal, RewritePlan];
    ApplyOne(w, s, RewriteGoal);
    ApplyConcat(w, s, [RewriteGoal], [RewritePlan]);
    ApplyOne(Apply(w, s, RewriteGoal), s, RewritePlan);
    assert ops[..1] == [RewriteGoal] && ops[..2] == [RewriteGoal] + [RewritePlan] && ops[..0] == [];
    RewriteSameEnd(w, s, RewriteGoal);
    RewriteSameEnd(Apply(w, s, RewriteGoal), s, RewritePlan);
  }

  /** Only the boundary between the two copies of a run that makes them. */
  predicate BetweenCopies(w: World, s: Setup, k: nat) {
    !HasContent(w, s.target) && k == 3
  }

  lemma AfterRemovals(w: World, s: Setup, order: seq<string>)
    requires Visits(w, s, order) && Cleared(w, order, |order|)
    ensures Pointers(w, s) == {}
  {
    forall p | p in ScanSet(w, s) ensures !(p in w.dirs && IsPointer(w.dirs[p])) {
      assert p in order;
    }
  }

  lemma RewriteFixes(w: World, s: Setup)
    requires Clean(w, s) && HasContent(w, s.target)
    ensures RewriteFile(FinalTarget(w, s).goal, s.target) == FinalTarget(w, s).goal
    ensures RewriteFile(FinalTarget(w, s).plan, s.target) == FinalTarget(w, s).plan
  {
    RewrittenIsClean(w.dirs[s.target].goal, s.target);
    RewrittenIsClean(w.dirs[s.target].plan, s.target);
  }

  lemma {:induction false} InterruptedLate(w: World, s: Setup, order: seq<string>, k: nat)
    requires Ready(w, s) && HasContent(w, s.target) && Visits(w, s, order)
    requires k <= |order| + (if w.arch.Some? then 1 else 0)
    ensures var ops := Removals(order) + if w.arch.Some? then [RemoveArch] else [];
            var w' := ApplyAll(w, s, ops[..k]);
            && SameEnd(w, w', s) && TargetDir(w', s) == TargetDir(w, s) && HasContent(w', s.target)
            && (k == |ops| ==> w'.arch.None? && Pointers(w', s) == {})
  {
    var removals := Removals(order);
    var ops := removals + if w.arch.Some? then [RemoveArch] else [];
    var n := if k <= |order| then k else |order|;
    RemovalsSameEnd(w, s, order, n);
    assert ops[..n] == removals[..n];
    var w1 := ApplyAll(w, s, removals[..n]);
    if n == |order| {
      assert ScanSet(w1, s) == ScanSet(w, s);
      AfterRemovals(w1, s, order);
    }
    if k > |order| {
      assert ops[..k] == removals[..n] + [RemoveArch];
      ApplyConcat(w, s, removals[..n], [RemoveArch]);
      ApplyOne(w1, s, RemoveArch);
      RemoveArchSameEnd(w1, s);
      assert Pointers(Apply(w1, s, RemoveArch), s) == {};
    }
  }

  lemma EndIsFinal(w: World, s: Setup)
    requires w.arch.None? && Pointers(w, s) == {} && HasContent(w, s.target)
    requires RewriteFile(TargetDir(w, s).goal, s.target) == TargetDir(w, s).goal
    requires RewriteFile(TargetDir(w, s).plan, s.target) == TargetDir(w, s).plan
    ensures Final(w, s) == w
  {
    assert w.dirs - {} == w.dirs;
  }

  function Finish(w: World, order: seq<string>): seq<Op> {
    Removals(order) + if w.arch.Some? then [RemoveArch] else []
  }

  /** The part of a run that follows the copies. */
  lemma {:induction false} InterruptedAfterCopies(w: World, s: Setup, order: seq<string>, k: nat)
    requires Ready(w, s) && HasContent(w, s.target) && Visits(w, s, order)
    requires k <= 2 + |Finish(w, order)|
    ensures var w' := ApplyAll(w, s, ([RewriteGoal, RewritePlan] + Finish(w, order))[..k]);
            SameEnd(w, w', s) && (k == 2 + |Finish(w, order)| ==> w' == Final(w, s))
  {
    var rewrites := [RewriteGoal, RewritePlan];
    var ops := rewrites + Finish(w, order);
    RewritePhase(w, s, if k <= 2 then k else 2);
    assert rewrites[..2] == rewrites && Finish(w, order)[..0] == [];
    ApplySplit(w, s, rewrites, Finish(w, order), k);
    if k >= 2 {
      var w2 := ApplyAll(w, s, rewrites);
      assert ScanSet(w2, s) == ScanSet(w, s);
      InterruptedLate(w2, s, order, k - 2);
      RewriteFixes(w, s);
      if k == 2 + |Finish(w, order)| {
        EndIsFinal(ApplyAll(w, s, ops[..k]), s);
      }
    }
  }

  /** The state after any number of operations of a run can be resumed, and a run from there ends where the
      uninterrupted run ends. The one exception is the boundary between the two copies, which loses the plan exactly
      when there is one and the target does not hold it already. */
  lemma {:induction false} Interrupted(w: World, s: Setup, order: seq<string>, k: nat)
    requires Ready(w, s) && Visits(w, s, order) && k <= |Program(w, s, order)|
    ensures var w' := ApplyAll(w, s, Program(w, s, order)[..k]);
            && Ready(w', s)
            && (Final(w', s) == Final(w, s) <==> !BetweenCopies(w, s, k) || PlanUnaffected(w, s))
            && (k == |Program(w, s, order)| ==> w' == Final(w, s))
  {
    var copies := Copies(w, s);
    var rest := [RewriteGoal, RewritePlan] + Finish(w, order);
    assert Program(w, s, order) == copies + rest;
    ApplySplit(w, s, copies, rest, k);
    if k <= |copies| {
      CopyPhase(w, s, k);
    } else {
      InterruptedLater(w, s, order, k - |copies|);
    }
  }

  /** `k` operations past the copies, if any were made. */
  lemma InterruptedLater(w: World, s: Setup, order: seq<string>, k: nat)
    requires Ready(w, s) && Visits(w, s, order) && k <= 2 + |Finish(w, order)|
    ensures var w1 := ApplyAll(w, s, Copies(w, s));
            var w' := ApplyAll(w1, s, ([RewriteGoal, RewritePlan] + Finish(w, order))[..k]);
            Ready(w', s) && Final(w', s) == Final(w, s) && (k == 2 + |Finish(w, order)| ==> w' == Final(w, s))
  {
    var copies := Copies(w, s);
    assert copies[..|copies|] == copies;
    CopyPhase(w, s, |copies|);
    var w1 := ApplyAll(w, s, copies);
    assert ScanSet(w1, s) == ScanSet(w, s);
    InterruptedAfterCopies(w1, s, order, k);
  }

  /** The exception exists: one chunk with a GOAL and a PLAN, stopped after the first copy and started again, ends
      without the PLAN that an uninterrupted run would have copied. */
  lemma {:induction false} PlanCanBeLost(target: string, goal: Doc, plan: Doc)
    requires goal.header.None? && plan.header.None?
    ensures var s, w := Setup(target, {}, {}), World(Some(Dir(Some(goal), Some(plan), false)), map[]);
            var stopped := ApplyAll(w, s, Program(w, s, [])[..3]);
            && Ready(w, s) && Visits(w, s, []) && Ready(stopped, s)
            && Final(w, s).dirs[target].plan == Some(plan) && Final(stopped, s).dirs[target].plan == None
  {
    var s, w := Setup(target, {}, {}), World(Some(Dir(Some(goal), Some(plan), false)), map[]);
    assert ScanSet(w, s) == {};
    assert Ready(w, s);
    var ops := Program(w, s, []);
    assert ops[..3] == [Unlink, MakeDir, CopyGoal];
    Interrupted(w, s, [], 3);
    Unrolled(w, s);
    var stopped := ApplyAll(w, s, ops[..3]);
    assert stopped.dirs[target] == Dir(Some(goal), None, false);
  }

  // ----- where an uninterrupted run ends, for all values, doubled prefixes included -----

  lemma {:induction false} RemovalsEnd(w: World, s: Setup, order: seq<string>)
    ensures ApplyAll(w, s, Removals(order)) == w.(dirs := w.dirs - PointersIn(w, set p | p in order))
  {
    if order != [] {
      var n := |order| - 1;
      RemovalsEnd(w, s, order[..n]);
      assert order == order[..n] + [order[n]];
      RemovalsSnoc(w, s, order[..n], order[n]);
      assert (set p | p in order) == (set p | p in order[..n]) + {order[n]};
      RemoveOneMore(w, s, (set p | p in order[..n]), order[n]);
    } else {
      assert PointersIn(w, set p | p in order) == {};
      assert w.dirs - {} == w.dirs;
    }
  }

  lemma RemoveOneMore(w: World, s: Setup, scan: set<string>, p: string)
    ensures Apply(w.(dirs := w.dirs - PointersIn(w, scan)), s, RemovePointer(p))
         == w.(dirs := w.dirs - PointersIn(w, scan + {p}))
  {
    var before, after := PointersIn(w, scan), PointersIn(w, scan + {p});
    if p in w.dirs && IsPointer(w.dirs[p]) {
      assert after == before + {p};
      assert w.dirs - after == w.dirs - before - {p};
    } else {
      assert after == before;
    }
  }

  lemma CopiesEnd(w: World, s: Setup)
    requires !HasContent(w, s.target) && w.arch.Some?
    ensures var d := Dir(if w.arch.value.goal.Some? then w.arch.value.goal else TargetDir(w, s).goal,
                         if w.arch.value.plan.Some? then w.arch.value.plan else TargetDir(w, s).plan, false);
            ApplyAll(w, s, Copies(w, s)) == SetTarget(w, s, d)
  {
    Unrolled(w, s);
    var w1 := Apply(w, s, Unlink);
    var w2 := Apply(w1, s, MakeDir);
    var d2 := TargetDir(w, s).(external := false);
    PreparedTarget(w, s);
    assert w2 == SetTarget(w, s, d2);
    CopiesOnto(w2, s, d2);
    var w4 := Apply(Apply(w2, s, CopyGoal), s, CopyPlan);
    assert w4.dirs == w.dirs[s.target := w4.dirs[s.target]];
  }

  lemma PreparedTarget(w: World, s: Setup)
    ensures Apply(Apply(w, s, Unlink), s, MakeDir) == SetTarget(w, s, TargetDir(w, s).(external := false))
  {
    var w1 := Apply(w, s, Unlink);
    assert TargetDir(w1, s) == TargetDir(w, s).(external := false);
    assert Apply(w1, s, MakeDir).dirs == w.dirs[s.target := TargetDir(w1, s)];
  }

  lemma CopiesOnto(w: World, s: Setup, d: Dir)
    requires w.arch.Some? && s.target in w.dirs && w.dirs[s.target] == d
    ensures Apply(Apply(w, s, CopyGoal), s, CopyPlan)
         == SetTarget(w, s, d.(goal := if w.arch.value.goal.Some? then w.arch.value.goal else d.goal,
                               plan := if w.arch.value.plan.Some? then w.arch.value.plan else d.plan))
  {
    assert SetTarget(w, s, d) == w;
  }

  lemma RewritesEnd(w: World, s: Setup)
    requires s.target in w.dirs
    ensures var d := w.dirs[s.target];
            ApplyAll(w, s, [RewriteGoal, RewritePlan])
            == SetTarget(w, s, d.(goal := RewriteFile(d.goal, s.target), plan := RewriteFile(d.plan, s.target)))
  {
    RewritesUnrolled(w, s);
  }

  /** The target after the copies and rewrites. */
  lemma FilesEnd(w: World, s: Setup)
    requires w.arch.Some? || HasContent(w, s.target)
    ensures ApplyAll(ApplyAll(w, s, Copies(w, s)), s, [RewriteGoal, RewritePlan]) == SetTarget(w, s, FinalTarget(w, s))
  {
    if HasContent(w, s.target) {
      RewritesEnd(w, s);
    } else {
      CopiesEnd(w, s);
      RewritesEnd(ApplyAll(w, s, Copies(w, s)), s);
    }
  }

  lemma PointersAfterFiles(w: World, s: Setup, order: seq<string>)
    requires Visits(w, s, order)
    ensures var w2 := SetTarget(w, s, FinalTarget(w, s));
            w2.dirs - PointersIn(w2, set p | p in order) == Final(w, s).dirs
  {
    var w2 := SetTarget(w, s, FinalTarget(w, s));
    assert (set p | p in order) == ScanSet(w, s);
    assert PointersIn(w2, ScanSet(w, s)) == Pointers(w, s);
    assert s.target !in Pointers(w, s);
  }

  lemma {:induction false} FullRunEnds(w: World, s: Setup, order: seq<string>)
    requires (w.arch.Some? || HasContent(w, s.target)) && Visits(w, s, order)
    ensures ApplyAll(w, s, Program(w, s, order)) == Final(w, s)
  {
    var w1 := ApplyAll(w, s, Copies(w, s));
    var w2 := ApplyAll(w1, s, [RewriteGoal, RewritePlan]);
    FilesEnd(w, s);
    RemovalsEnd(w2, s, order);
    PointersAfterFiles(w, s, order);
    ProgramByPhases(w, w1, w2, ApplyAll(w2, s, Removals(order)), s, order);
  }

  /** One of the repositories that are searched for directories that only point to the chunk. */
  predicate Searched(w: World, s: Setup, p: string) {
    && p != s.target && p in s.accessible
    && (p in s.projects
        || (w.arch.Some? && w.arch.value.goal.Some? && w.arch.value.goal.value.header.Some?
            && w.arch.value.goal.value.header.value.dependents.Some?
            && p in w.arch.value.goal.value.header.value.dependents.value))
  }

  /** What is left: no architecture chunk; in every other project its directory as it was, unless it was searched and
      held external.yaml and no GOAL; and in the target the files it had, or those of the architecture chunk where that
      has them and the target had no GOAL, stripped. */
  lemma {:induction false} EndState(w: World, s: Setup, order: seq<string>)
    requires (w.arch.Some? || HasContent(w, s.target)) && Visits(w, s, order)
    ensures var e := ApplyAll(w, s, Program(w, s, order));
            && e.arch == None
            && (forall p :: p != s.target ==>
                  && (p in e.dirs <==>
                        p in w.dirs && !(Searched(w, s, p) && w.dirs[p].external && w.dirs[p].goal.None?))
                  && (p in e.dirs ==> e.dirs[p] == w.dirs[p]))
            && s.target in e.dirs
    ensures var e, d := ApplyAll(w, s, Program(w, s, order)).dirs[s.target], TargetDir(w, s);
            var copied := d.goal.None?;
            && StrippedFile(if copied && w.arch.value.goal.Some? then w.arch.value.goal else d.goal, e.goal, s.target)
            && StrippedFile(if copied && w.arch.value.plan.Some? then w.arch.value.plan else d.plan, e.plan, s.target)
            && e.external == (!copied && d.external)
  {
    FullRunEnds(w, s, order);
    var e, d := FinalTarget(w, s), TargetDir(w, s);
    assert HasContent(w, s.target) <==> d.goal.Some?;
    RewriteStrips(if d.goal.None? && w.arch.value.goal.Some? then w.arch.value.goal else d.goal, e.goal, s.target);
    RewriteStrips(if d.goal.None? && w.arch.value.plan.Some? then w.arch.value.plan else d.plan, e.plan, s.target);
    forall p ensures p in ScanSet(w, s) <==> Searched(w, s, p) {
    }
  }

  // ----- several interruptions -----

  /** `ws[i+1]` is the state in which the run from `ws[i]` is interrupted; the last run is not. */
  ghost predicate Restarts(ws: seq<World>, s: Setup, orders: seq<seq<string>>, cuts: seq<nat>) {
    && |orders| == |cuts| && |ws| == |cuts| + 1
    && forall i :: 0 <= i < |cuts| ==> RestartStep(ws[i], s, orders[i], cuts[i], ws[i+1])
  }

  ghost predicate RestartStep(w: World, s: Setup, order: seq<string>, cut: nat, w': World) {
    StopStep(w, s, order, cut, w') && (!BetweenCopies(w, s, cut) || PlanUnaffected(w, s))
  }

  /** A run from `w`, stopped after `cut` operations. */
  ghost predicate StopStep(w: World, s: Setup, order: seq<string>, cut: nat, w': World) {
    && Visits(w, s, order) && cut <= |Program(w, s, order)|
    && w' == ApplyAll(w, s, Program(w, s, order)[..cut])
  }

  /** However often a demotion is interrupted and started again, in whatever order the projects are visited, the run
      that goes through ends in the filesystem of one uninterrupted run. */
  lemma {:induction false} RestartsEndAlike(ws: seq<World>, s: Setup, orders: seq<seq<string>>, cuts: seq<nat>,
                                            order: seq<string>)
    requires Restarts(ws, s, orders, cuts) && Ready(ws[0], s) && Visits(ws[|cuts|], s, order)
    ensures Ready(ws[|cuts|], s)
    ensures ApplyAll(ws[|cuts|], s, Program(ws[|cuts|], s, order)) == Final(ws[0], s)
  {
    var n := |cuts|;
    RestartsKeepEnd(ws, s, orders, cuts, n);
    var ops := Program(ws[n], s, order);
    Interrupted(ws[n], s, order, |ops|);
    assert ops[..|ops|] == ops;
  }

  lemma {:induction false} RestartsKeepEnd(ws: seq<World>, s: Setup, orders: seq<seq<string>>, cuts: seq<nat>, n: nat)
    requires Restarts(ws, s, orders, cuts) && Ready(ws[0], s) && n <= |cuts|
    ensures Ready(ws[n], s) && Final(ws[n], s) == Final(ws[0], s)
  {
    if n > 0 {
      RestartsKeepEnd(ws, s, orders, cuts, n - 1);
      assert RestartStep(ws[n-1], s, orders[n-1], cuts[n-1], ws[n-1+1]);
      Interrupted(ws[n-1], s, orders[n-1], cuts[n-1]);
    }
  }

  // ----- when the GOAL text is lost -----

  /** The GOAL, text and frontmatter, as written or stripped, is in one of the two places. */
  predicate GoalKept(goal: Doc, w: World, s: Setup) {
    (w.arch.Some? && w.arch.value.goal == Some(goal)) || IsThatGoal(goal, TargetDir(w, s).goal, s)
  }

  predicate IsThatGoal(goal: Doc, held: Option<Doc>, s: Setup) {
    held.Some? && (held.value == goal || StrippedDoc(goal, held.value, s.target))
  }

  /** The same name, with or without the prefix. */
  predicate SameName(x: string, y: string, orgRepo: string) {
    x == y || x == orgRepo + "::" + y || y == orgRepo + "::" + x
  }

  predicate SameRef(a: CodeRef, b: CodeRef, orgRepo: string) {
    match a
    case Keyed(ref, other) => b.Keyed? && b.other == other && SameName(ref, b.ref, orgRepo)
    case Bare(ref) => b.Bare? && SameName(ref, b.ref, orgRepo)
    case Foreign(_) => b == a
  }

  /** The same text, and frontmatter that differs in prefixes and in `dependents` only. */
  predicate SameDoc(a: Doc, b: Doc, orgRepo: string) {
    && a.body == b.body && (a.header.Some? <==> b.header.Some?)
    && (a.header.Some? ==> SameHeader(a.header.value, b.header.value, orgRepo))
  }

  predicate SameHeader(a: Header, b: Header, orgRepo: string) {
    && a.rest == b.rest && |a.codePaths| == |b.codePaths| && |a.codeReferences| == |b.codeReferences|
    && (forall i :: 0 <= i < |a.codePaths| ==> SameName(a.codePaths[i], b.codePaths[i], orgRepo))
    && (forall i :: 0 <= i < |a.codeReferences| ==> SameRef(a.codeReferences[i], b.codeReferences[i], orgRepo))
  }

  /** The target holds no GOAL yet, or one that differs from the architecture chunk's in prefixes only. */
  predicate SameChunk(goal: Doc, w: World, s: Setup) {
    HasContent(w, s.target) ==> SameDoc(goal, TargetDir(w, s).goal.value, s.target)
  }

  lemma SameNameIs(x: string, y: string, orgRepo: string)
    requires !Doubled(x, orgRepo) && !Doubled(y, orgRepo)
    ensures SameName(x, y, orgRepo) <==> StripProjectPrefix(x, orgRepo) == StripProjectPrefix(y, orgRepo)
  {
    var prefix := orgRepo + "::";
    DoubledMeans(x, prefix);
    DoubledMeans(y, prefix);
    if prefix <= x { assert x == prefix + x[|prefix|..]; }
    if prefix <= y { assert y == prefix + y[|prefix|..]; }
    if x == prefix + y { assert x[|prefix|..] == y; }
    if y == prefix + x { assert y[|prefix|..] == x; }
  }

  lemma SameRefIs(a: CodeRef, b: CodeRef, orgRepo: string)
    requires (!a.Foreign? ==> !Doubled(a.ref, orgRepo)) && (!b.Foreign? ==> !Doubled(b.ref, orgRepo))
    ensures SameRef(a, b, orgRepo) <==> StripRef(a, orgRepo) == StripRef(b, orgRepo)
  {
    if !a.Foreign? && !b.Foreign? { SameNameIs(a.ref, b.ref, orgRepo); }
  }

  lemma SameNamesAre(a: seq<string>, b: seq<string>, orgRepo: string)
    requires |a| == |b| && (forall i :: 0 <= i < |a| ==> !Doubled(a[i], orgRepo) && !Doubled(b[i], orgRepo))
    ensures (forall i :: 0 <= i < |a| ==> SameName(a[i], b[i], orgRepo)) <==>
              StripPaths(a, orgRepo) == StripPaths(b, orgRepo)
  {
    var p, q := StripPaths(a, orgRepo), StripPaths(b, orgRepo);
    forall i | 0 <= i < |a| ensures SameName(a[i], b[i], orgRepo) <==> p[i] == q[i] {
      SameNameIs(a[i], b[i], orgRepo);
    }
    if p == q { assert forall i :: 0 <= i < |a| ==> p[i] == q[i]; }
  }

  predicate CleanRef(r: CodeRef, orgRepo: string) {
    !r.Foreign? ==> !Doubled(r.ref, orgRepo)
  }

  lemma SameRefsAre(a: seq<CodeRef>, b: seq<CodeRef>, orgRepo: string)
    requires |a| == |b| && (forall i :: 0 <= i < |a| ==> CleanRef(a[i], orgRepo) && CleanRef(b[i], orgRepo))
    ensures (forall i :: 0 <= i < |a| ==> SameRef(a[i], b[i], orgRepo)) <==>
              StripRefs(a, orgRepo) == StripRefs(b, orgRepo)
  {
    var p, q := StripRefs(a, orgRepo), StripRefs(b, orgRepo);
    forall i | 0 <= i < |a| ensures SameRef(a[i], b[i], orgRepo) <==> p[i] == q[i] {
      SameRefIs(a[i], b[i], orgRepo);
    }
    if p == q { assert forall i :: 0 <= i < |a| ==> p[i] == q[i]; }
  }

  lemma SameHeaderIs(a: Header, b: Header, orgRepo: string)
    requires !HeaderDoubled(a, orgRepo) && !HeaderDoubled(b, orgRepo)
    ensures SameHeader(a, b, orgRepo) <==>
              && a.rest == b.rest && StripPaths(a.codePaths, orgRepo) == StripPaths(b.codePaths, orgRepo)
              && StripRefs(a.codeReferences, orgRepo) == StripRefs(b.codeReferences, orgRepo)
  {
    assert |StripPaths(a.codePaths, orgRepo)| == |a.codePaths| && |StripPaths(b.codePaths, orgRepo)| == |b.codePaths|;
    assert |StripRefs(a.codeReferences, orgRepo)| == |a.codeReferences|;
    assert |StripRefs(b.codeReferences, orgRepo)| == |b.codeReferences|;
    if |a.codePaths| == |b.codePaths| { SameNamesAre(a.codePaths, b.codePaths, orgRepo); }
    if |a.codeReferences| == |b.codeReferences| { SameRefsAre(a.codeReferences, b.codeReferences, orgRepo); }
  }

  /** Without doubled prefixes, two documents are the same in this sense exactly when they are rewritten alike. */
  lemma SameDocIs(a: Doc, b: Doc, orgRepo: string)
    requires !FileDoubled(Some(a), orgRepo) && !FileDoubled(Some(b), orgRepo)
    ensures SameDoc(a, b, orgRepo) <==> Rewrite(a, orgRepo) == Rewrite(b, orgRepo)
  {
    if a.header.Some? && b.header.Some? { SameHeaderIs(a.header.value, b.header.value, orgRepo); }
  }

  lemma IsThatGoalIs(goal: Doc, held: Option<Doc>, s: Setup)
    ensures IsThatGoal(goal, held, s) <==> held == Some(goal) || held == Some(Rewrite(goal, s.target))
  {
    RewriteStrips(Some(goal), held, s.target);
  }

  lemma SameChunkIs(goal: Doc, w: World, s: Setup)
    requires !FileDoubled(Some(goal), s.target) && !FileDoubled(TargetDir(w, s).goal, s.target)
    ensures SameChunk(goal, w, s) <==>
              (HasContent(w, s.target) ==> RewriteFile(TargetDir(w, s).goal, s.target) == Some(Rewrite(goal, s.target)))
  {
    if HasContent(w, s.target) { SameDocIs(goal, TargetDir(w, s).goal.value, s.target); }
  }

  lemma {:induction false} ArchStaysUntilLast(w: World, s: Setup, ops: seq<Op>)
    requires RemoveArch !in ops
    ensures ApplyAll(w, s, ops).arch == w.arch
  {
    if ops != [] {
      assert ops[|ops|-1] in ops;
      ArchStaysUntilLast(w, s, ops[..|ops|-1]);
    }
  }

  lemma RemovesArchLast(w: World, s: Setup, order: seq<string>, k: nat)
    requires k < |Program(w, s, order)|
    ensures ApplyAll(w, s, Program(w, s, order)[..k]).arch == w.arch
  {
    assert RemoveArch !in Program(w, s, order)[..k];
    ArchStaysUntilLast(w, s, Program(w, s, order)[..k]);
  }

  /** The GOAL that a whole run leaves in the target is that of the architecture chunk exactly when the target held no
      other one. */
  lemma EndsWithThatGoal(w: World, s: Setup, goal: Doc)
    requires Ready(w, s) && w.arch.Some? && w.arch.value.goal == Some(goal)
    ensures IsThatGoal(goal, FinalTarget(w, s).goal, s) <==> SameChunk(goal, w, s)
  {
    RewrittenIsClean(Some(goal), s.target);
    RewrittenIsClean(TargetDir(w, s).goal, s.target);
    SameChunkIs(goal, w, s);
    IsThatGoalIs(goal, FinalTarget(w, s).goal, s);
  }

  /** At every step of a run the GOAL text is in one of the two places; after the last one, exactly when the target did
      not hold the GOAL of another chunk to begin with. A target that holds this very GOAL, as after an earlier stop, is
      not the exception. */
  lemma {:induction false} GoalKeptIff(w: World, s: Setup, order: seq<string>, k: nat, goal: Doc)
    requires Ready(w, s) && Visits(w, s, order) && k <= |Program(w, s, order)|
    requires w.arch.Some? && w.arch.value.goal == Some(goal)
    ensures GoalKept(goal, ApplyAll(w, s, Program(w, s, order)[..k]), s)
            <==> k < |Program(w, s, order)| || SameChunk(goal, w, s)
  {
    if k < |Program(w, s, order)| {
      RemovesArchLast(w, s, order, k);
    } else {
      Interrupted(w, s, order, k);
      EndsWithThatGoal(w, s, goal);
    }
  }

  /** So the GOAL text is never lost, in a first run or in any later one, unless the target holds another GOAL. */
  lemma GoalNeverLost(w: World, s: Setup, order: seq<string>, k: nat, goal: Doc)
    requires Ready(w, s) && Visits(w, s, order) && k <= |Program(w, s, order)|
    requires w.arch.Some? && w.arch.value.goal == Some(goal) && SameChunk(goal, w, s)
    ensures GoalKept(goal, ApplyAll(w, s, Program(w, s, order)[..k]), s)
  {
    GoalKeptIff(w, s, order, k, goal);
  }

  /** The exception exists: the architecture chunk has one GOAL and the target another, of any two documents without
      frontmatter. The target counts as copied already, and the whole run removes the architecture chunk. */
  lemma {:induction false} GoalCanBeLost(target: string, goal: Doc, other: Doc)
    requires goal.header.None? && other.header.None? && goal != other
    ensures var s := Setup(target, {}, {});
            var w := World(Some(Dir(Some(goal), None, false)), map[target := Dir(Some(other), None, false)]);
            Ready(w, s) && Visits(w, s, []) && !GoalKept(goal, ApplyAll(w, s, Program(w, s, [])), s)
  {
    var s := Setup(target, {}, {});
    var w := World(Some(Dir(Some(goal), None, false)), map[target := Dir(Some(other), None, false)]);
    assert ScanSet(w, s) == {};
    assert Ready(w, s);
    var ops := Program(w, s, []);
    assert ops[..|ops|] == ops;
    GoalKeptIff(w, s, [], |ops|, goal);
  }

  // ----- the GOAL over any number of stops -----

  /** Either the architecture chunk still holds the GOAL and the target no other one, or the target holds it. */
  predicate GoalSafe(goal: Doc, w: World, s: Setup) {
    if w.arch.Some? then w.arch.value.goal == Some(goal) && SameChunk(goal, w, s)
    else IsThatGoal(goal, TargetDir(w, s).goal, s)
  }

  lemma {:induction false} TargetGoalStays(w: World, s: Setup, ops: seq<Op>, goal: Option<Doc>)
    requires CopyGoal !in ops && goal.Some? && !FileDoubled(goal, s.target)
    requires HasContent(w, s.target) && TargetDir(w, s).goal == goal
    ensures var w' := ApplyAll(w, s, ops);
            && HasContent(w', s.target)
            && (TargetDir(w', s).goal == goal || TargetDir(w', s).goal == RewriteFile(goal, s.target))
  {
    if ops != [] {
      assert ops[|ops|-1] in ops;
      TargetGoalStays(w, s, ops[..|ops|-1], goal);
      RewrittenIsClean(goal, s.target);
    }
  }

  /** Before the first copy the target has no GOAL; from then on it has this one. */
  lemma {:induction false} CopiedGoal(w: World, s: Setup, order: seq<string>, k: nat, goal: Doc)
    requires Ready(w, s) && Visits(w, s, order) && k <= |Program(w, s, order)|
    requires w.arch.Some? && w.arch.value.goal == Some(goal) && SameChunk(goal, w, s)
    ensures SameChunk(goal, ApplyAll(w, s, Program(w, s, order)[..k]), s)
  {
    var ops := Program(w, s, order);
    Interrupted(w, s, order, k);
    SameChunkIs(goal, w, s);
    SameChunkIs(goal, ApplyAll(w, s, ops[..k]), s);
    if HasContent(w, s.target) {
      assert CopyGoal !in ops[..k];
      TargetGoalStays(w, s, ops[..k], TargetDir(w, s).goal);
      RewrittenIsClean(TargetDir(w, s).goal, s.target);
    } else if k <= 2 {
      FirstSteps(w, s, order, k);
    } else {
      AfterFirstCopy(w, s, order, k, goal);
      RewrittenIsClean(Some(goal), s.target);
    }
  }

  lemma AfterFirstCopy(w: World, s: Setup, order: seq<string>, k: nat, goal: Doc)
    requires Ready(w, s) && 3 <= k <= |Program(w, s, order)| && !HasContent(w, s.target)
    requires w.arch.Some? && w.arch.value.goal == Some(goal)
    ensures var held := TargetDir(ApplyAll(w, s, Program(w, s, order)[..k]), s).goal;
            held == Some(goal) || held == Some(Rewrite(goal, s.target))
  {
    var ops := Program(w, s, order);
    FirstSteps(w, s, order, 2);
    var rest := ops[3..k];
    assert ops[..k] == ops[..2] + [CopyGoal] + rest && CopyGoal !in rest;
    ApplyConcat(w, s, ops[..2] + [CopyGoal], rest);
    ApplySnoc(w, s, ops[..2], CopyGoal);
    TargetGoalStays(Apply(ApplyAll(w, s, ops[..2]), s, CopyGoal), s, rest, Some(goal));
  }

  lemma FirstSteps(w: World, s: Setup, order: seq<string>, k: nat)
    requires Ready(w, s) && !HasContent(w, s.target) && k <= 2
    ensures var w' := ApplyAll(w, s, Program(w, s, order)[..k]);
            !HasContent(w', s.target) && w'.arch == w.arch
  {
    var ops := Program(w, s, order);
    assert ops[..0] == [] && ops[..1] == [Unlink] && ops[..2] == [Unlink, MakeDir];
    Unrolled(w, s);
  }

  lemma {:induction false} StopKeepsGoalSafe(w: World, s: Setup, order: seq<string>, k: nat, w': World, goal: Doc)
    requires Ready(w, s) && StopStep(w, s, order, k, w') && GoalSafe(goal, w, s) && !FileDoubled(Some(goal), s.target)
    ensures GoalSafe(goal, w', s) && GoalKept(goal, w', s)
  {
    var ops := Program(w, s, order);
    if w.arch.None? {
      assert CopyGoal !in ops[..k] && RemoveArch !in ops[..k];
      ArchStaysUntilLast(w, s, ops[..k]);
      IsThatGoalIs(goal, TargetDir(w, s).goal, s);
      RewrittenIsClean(Some(goal), s.target);
      TargetGoalStays(w, s, ops[..k], TargetDir(w, s).goal);
      RewriteOnce(goal, TargetDir(w, s).goal, s);
    } else if k < |ops| {
      RemovesArchLast(w, s, order, k);
      CopiedGoal(w, s, order, k, goal);
    } else {
      GoalKeptIff(w, s, order, k, goal);
      Interrupted(w, s, order, k);
    }
  }

  lemma RewriteOnce(goal: Doc, held: Option<Doc>, s: Setup)
    requires IsThatGoal(goal, held, s) && !FileDoubled(Some(goal), s.target)
    ensures IsThatGoal(goal, RewriteFile(held, s.target), s)
  {
    RewrittenIsClean(Some(goal), s.target);
    IsThatGoalIs(goal, held, s);
    IsThatGoalIs(goal, RewriteFile(held, s.target), s);
  }

  /** Runs that are stopped anywhere, between the two copies included. */
  ghost predicate Stops(ws: seq<World>, s: Setup, orders: seq<seq<string>>, cuts: seq<nat>) {
    && |orders| == |cuts| && |ws| == |cuts| + 1
    && forall i :: 0 <= i < |cuts| ==> StopStep(ws[i], s, orders[i], cuts[i], ws[i+1])
  }

  /** However often and wherever a demotion is stopped and started again, the GOAL text is in one of the two places
      after every stop and after the last run, if the target did not hold the GOAL of another chunk to begin with. */
  lemma {:induction false} StopsKeepGoal(ws: seq<World>, s: Setup, orders: seq<seq<string>>, cuts: seq<nat>, n: nat,
                                         goal: Doc)
    requires Stops(ws, s, orders, cuts) && Ready(ws[0], s) && n <= |cuts|
    requires ws[0].arch.Some? && ws[0].arch.value.goal == Some(goal) && SameChunk(goal, ws[0], s)
    ensures Ready(ws[n], s) && GoalSafe(goal, ws[n], s) && GoalKept(goal, ws[n], s)
  {
    if n > 0 {
      StopsKeepGoal(ws, s, orders, cuts, n - 1, goal);
      assert StopStep(ws[n-1], s, orders[n-1], cuts[n-1], ws[n-1+1]);
      Interrupted(ws[n-1], s, orders[n-1], cuts[n-1]);
      StopKeepsGoalSafe(ws[n-1], s, orders[n-1], cuts[n-1], ws[n], goal);
    }
  }

  lemma StopKeepsReady(w: World, s: Setup, order: seq<string>, k: nat, w': World)
    requires Ready(w, s) && StopStep(w, s, order, k, w')
    ensures Ready(w', s) && FinalTarget(w', s).goal == FinalTarget(w, s).goal
  {
    Interrupted(w, s, order, k);
    assert Final(w, s).dirs[s.target] == FinalTarget(w, s) && Final(w', s).dirs[s.target] == FinalTarget(w', s);
    if BetweenCopies(w, s, k) {
      var ops := Program(w, s, order);
      assert ops[..3] == [Unlink, MakeDir, CopyGoal];
      Unrolled(w, s);
      assert w.arch.Some?;
    }
  }

  lemma {:induction false} StopsKeepFinalGoal(ws: seq<World>, s: Setup, orders: seq<seq<string>>, cuts: seq<nat>,
                                              n: nat)
    requires Stops(ws, s, orders, cuts) && Ready(ws[0], s) && n <= |cuts|
    ensures Ready(ws[n], s) && FinalTarget(ws[n], s).goal == FinalTarget(ws[0], s).goal
  {
    if n > 0 {
      StopsKeepFinalGoal(ws, s, orders, cuts, n - 1);
      assert StopStep(ws[n-1], s, orders[n-1], cuts[n-1], ws[n-1+1]);
      StopKeepsReady(ws[n-1], s, orders[n-1], cuts[n-1], ws[n]);
    }
  }

  /** And exactly then: once a run goes through, the GOAL text is in the target if and only if that was so. */
  lemma {:induction false} StopsEndWithGoalIff(ws: seq<World>, s: Setup, orders: seq<seq<string>>, cuts: seq<nat>,
                                               order: seq<string>, goal: Doc)
    requires Stops(ws, s, orders, cuts) && Ready(ws[0], s) && Visits(ws[|cuts|], s, order)
    requires ws[0].arch.Some? && ws[0].arch.value.goal == Some(goal)
    ensures GoalKept(goal, ApplyAll(ws[|cuts|], s, Program(ws[|cuts|], s, order)), s) <==> SameChunk(goal, ws[0], s)
  {
    var w := ws[|cuts|];
    StopsKeepFinalGoal(ws, s, orders, cuts, |cuts|);
    var ops := Program(w, s, order);
    assert ops[..|ops|] == ops;
    Interrupted(w, s, order, |ops|);
    assert TargetDir(Final(w, s), s) == FinalTarget(w, s);
    EndsWithThatGoal(ws[0], s, goal);
  }

  // ----- the operation on the directories -----

  datatype Reply =
    | Demoted(pointersRemoved: nat, sourceRemoved: bool)
    | NotFound
    | OtherOwner(project: string)
    | OutOfScope(offenders: seq<string>)

  lemma ApplySnoc(w: World, s: Setup, ops: seq<Op>, op: Op)
    ensures ApplyAll(w, s, ops + [op]) == Apply(ApplyAll(w, s, ops), s, op)
  {
    assert (ops + [op])[..|ops|] == ops;
  }

  class Workspace {
    var arch: Option<Dir>
    var dirs: map<string, Dir>

    constructor (arch: Option<Dir>, dirs: map<string, Dir>)
      ensures State() == World(arch, dirs)
    {
      this.arch, this.dirs := arch, dirs;
    }

    ghost function State(): World
      reads this
    {
      World(arch, dirs)
    }

    /** Step 4: a scanned project that owns the chunk, if there is one. */
    method FindOtherOwner(scan: set<string>) returns (owner: Option<string>)
      ensures owner.Some? ==> owner.value in scan && HasContent(State(), owner.value)
      ensures owner.None? ==> forall p :: p in scan ==> !HasContent(State(), p)
    {
      var todo := scan;
      while todo != {}
        invariant todo <= scan && forall p :: p in scan - todo ==> !HasContent(State(), p)
        decreases todo
      {
        var p :| p in todo;
        if p in dirs && dirs[p].goal.Some? {
          return Some(p);
        }
        todo := todo - {p};
      }
      owner := None;
    }

    /** Step 6. */
    method CopyFiles(s: Setup)
      requires !HasContent(State(), s.target) && arch.Some?
      modifies this`dirs
      ensures State() == ApplyAll(old(State()), s, Copies(old(State()), s))
      ensures OthersKept(old(State()), State(), s)
    {
      ghost var w0 := State();
      Unrolled(w0, s);
      if s.target in dirs && dirs[s.target].external {
        dirs := dirs[s.target := dirs[s.target].(external := false)];
      }
      ghost var w1 := State();
      assert w1 == Apply(w0, s, Unlink);
      if s.target !in dirs {
        dirs := dirs[s.target := Dir(None, None, false)];
      }
      ghost var w2 := State();
      assert w2 == Apply(w1, s, MakeDir);
      if arch.value.goal.Some? {
        dirs := dirs[s.target := dirs[s.target].(goal := arch.value.goal)];
      }
      assert State() == Apply(w2, s, CopyGoal);
      if arch.value.plan.Some? {
        dirs := dirs[s.target := dirs[s.target].(plan := arch.value.plan)];
      }
    }

    /** Step 7. */
    method RewriteFiles(s: Setup)
      modifies this`dirs
      ensures State() == ApplyAll(old(State()), s, [RewriteGoal, RewritePlan])
      ensures OthersKept(old(State()), State(), s)
    {
      RewritesUnrolled(State(), s);
      if s.target in dirs {
        dirs := dirs[s.target := dirs[s.target].(goal := RewriteFile(dirs[s.target].goal, s.target))];
        dirs := dirs[s.target := dirs[s.target].(plan := RewriteFile(dirs[s.target].plan, s.target))];
      }
    }

    /** Step 8: directories that only point to the chunk go, and are counted. */
    method RemovePointers(scan: set<string>, ghost s: Setup) returns (removed: nat, ghost order: seq<string>)
      modifies this`dirs
      ensures State() == ApplyAll(old(State()), s, Removals(order))
      ensures forall p :: p in order <==> p in scan
      ensures removed == |PointersIn(old(State()), scan)|
    {
      ghost var w0 := State();
      removed, order := 0, [];
      var todo := scan;
      while todo != {}
        invariant todo <= scan && forall p :: p in order <==> p in scan - todo
        invariant State() == ApplyAll(w0, s, Removals(order))
        invariant dirs == w0.dirs - PointersIn(w0, scan - todo) && removed == |PointersIn(w0, scan - todo)|
        decreases todo
      {
        var p :| p in todo;
        RemovalsSnoc(w0, s, order, p);
        OneMorePointer(w0, scan - todo, p);
        order := order + [p];
        if p in dirs && IsPointer(dirs[p]) {
          dirs := dirs - {p};
          removed := removed + 1;
        }
        assert scan - (todo - {p}) == scan - todo + {p};
        todo := todo - {p};
      }
      assert scan - todo == scan;
    }

    /** `demote_chunk` once its configuration and repositories are resolved. */
    method DemoteChunk(s: Setup) returns (reply: Reply, ghost order: seq<string>)
      modifies this
      ensures reply.Demoted? <==> Passes(old(State()), s)
      ensures reply.Demoted? ==>
        && Visits(old(State()), s, order)
        && State() == ApplyAll(old(State()), s, Program(old(State()), s, order))
        && State() == Final(old(State()), s)
        && reply.sourceRemoved == old(arch).Some?
        && reply.pointersRemoved == |Pointers(old(State()), s)|
      ensures !reply.Demoted? ==> State() == old(State())
      ensures reply.NotFound? <==> old(arch).None? && !HasContent(old(State()), s.target)
      ensures reply.OtherOwner? ==> reply.project in ScanSet(old(State()), s) && HasContent(old(State()), reply.project)
      ensures reply.OutOfScope? ==>
        reply.offenders != []
        && reply.offenders == Offenders(CodePaths(old(State())), TextLines.AfterLastSlash(s.target))
        && forall q :: q in reply.offenders <==>
             q in CodePaths(old(State())) && Offending(q, TextLines.AfterLastSlash(s.target))
    {
      ghost var w0 := State();
      order := [];
      var hasContent := s.target in dirs && dirs[s.target].goal.Some?;
      if arch.None? && !hasContent {
        return NotFound, order;
      }
      var dependents := Dependents(World(arch, dirs));
      var scan := (dependents + s.projects - {s.target}) * s.accessible;
      var owner := FindOtherOwner(scan);
      if owner.Some? {
        return OtherOwner(owner.value), order;
      }
      if arch.Some? {
        var offenders := ValidateChunkScope(CodePaths(World(arch, dirs)), TextLines.AfterLastSlash(s.target));
        if offenders != [] {
          assert offenders[0] in offenders;
          return OutOfScope(offenders), order;
        }
        assert forall q :: q in CodePaths(w0) ==> !Offending(q, TextLines.AfterLastSlash(s.target));
      }
      var removed, sourceRemoved;
      removed, sourceRemoved, order := Collapse(s, scan);
      FullRunEnds(w0, s, order);
      reply := Demoted(removed, sourceRemoved);
    }

    /** Steps 6 to 9. */
    method Collapse(s: Setup, scan: set<string>)
      returns (removed: nat, sourceRemoved: bool, ghost order: seq<string>)
      requires arch.Some? || HasContent(State(), s.target)
      requires s.target !in scan
      modifies this
      ensures forall p :: p in order <==> p in scan
      ensures State() == ApplyAll(old(State()), s, Program(old(State()), s, order))
      ensures removed == |PointersIn(old(State()), scan)| && sourceRemoved == old(arch).Some?
    {
      ghost var w0 := State();
      if !(s.target in dirs && dirs[s.target].goal.Some?) {
        CopyFiles(s);
      }
      ghost var w1 := State();
      RewriteFiles(s);
      ghost var w2 := State();
      removed, order := RemovePointers(scan, s);
      sourceRemoved := arch.Some?;
      ProgramByPhases(w0, w1, w2, State(), s, order);
      PointersUntouched(w0, w2, s, scan);
      arch := None;
    }
  }

  ghost predicate OthersKept(w: World, w': World, s: Setup) {
    && w'.arch == w.arch
    && forall p :: p != s.target ==> (p in w'.dirs <==> p in w.dirs) && (p in w.dirs ==> w'.dirs[p] == w.dirs[p])
  }

  lemma OneMorePointer(w: World, scan: set<string>, p: string)
    requires p !in scan
    ensures var before, after := PointersIn(w, scan), PointersIn(w, scan + {p});
            if p in w.dirs && IsPointer(w.dirs[p])
            then |after| == |before| + 1 && w.dirs - after == w.dirs - before - {p}
            else after == before
    ensures p in w.dirs - PointersIn(w, scan) <==> p in w.dirs
  {
    if p in w.dirs && IsPointer(w.dirs[p]) {
      assert PointersIn(w, scan + {p}) == PointersIn(w, scan) + {p};
    } else {
      assert PointersIn(w, scan + {p}) == PointersIn(w, scan);
    }
  }

  lemma RemovalsSnoc(w: World, s: Setup, order: seq<string>, p: string)
    ensures ApplyAll(w, s, Removals(order + [p])) == Apply(ApplyAll(w, s, Removals(order)), s, RemovePointer(p))
  {
    assert Removals(order + [p]) == Removals(order) + [RemovePointer(p)];
    ApplySnoc(w, s, Removals(order), RemovePointer(p));
  }

  lemma RewritesUnrolled(w: World, s: Setup)
    ensures ApplyAll(w, s, [RewriteGoal, RewritePlan]) == Apply(Apply(w, s, RewriteGoal), s, RewritePlan)
  {
    ApplyOne(w, s, RewriteGoal);
    ApplySnoc(w, s, [RewriteGoal], RewritePlan);
    assert [RewriteGoal] + [RewritePlan] == [RewriteGoal, RewritePlan];
  }

  lemma ProgramByPhases(w0: World, w1: World, w2: World, w3: World, s: Setup, order: seq<string>)
    requires w1 == ApplyAll(w0, s, Copies(w0, s)) && w2 == ApplyAll(w1, s, [RewriteGoal, RewritePlan])
    requires w3 == ApplyAll(w2, s, Removals(order)) && w3.arch == w0.arch
    ensures ApplyAll(w0, s, Program(w0, s, order)) == w3.(arch := None)
  {
    var last := if w0.arch.Some? then [RemoveArch] else [];
    ApplyPhases(w0, s, Copies(w0, s), [RewriteGoal, RewritePlan], Removals(order), last);
    if w0.arch.Some? {
      ApplyOne(w3, s, RemoveArch);
    }
  }

  lemma ApplyPhases(w: World, s: Setup, a: seq<Op>, b: seq<Op>, c: seq<Op>, d: seq<Op>)
    ensures ApplyAll(w, s, a + b + c + d) == ApplyAll(ApplyAll(ApplyAll(ApplyAll(w, s, a), s, b), s, c), s, d)
  {
    ApplyConcat(w, s, a, b);
    ApplyConcat(w, s, a + b, c);
    ApplyConcat(w, s, a + b + c, d);
  }

  lemma PointersUntouched(w0: World, w2: World, s: Setup, scan: set<string>)
    requires s.target !in scan && OthersKept(w0, w2, s)
    ensures PointersIn(w2, scan) == PointersIn(w0, scan)
  {
    forall p | p in scan ensures p in PointersIn(w2, scan) <==> p in PointersIn(w0, scan) {
    }
  }
}
