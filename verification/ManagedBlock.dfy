/** The managed block of AGENTS.md: marker parsing and the splice between markers. */
module ManagedBlock {
  import opened Options

  const MARKER_START := "<!-- VE:MANAGED:START -->"
  const MARKER_END := "<!-- VE:MANAGED:END -->"

  // ----- occurrences, as str.count and str.index see them -----

  predicate OccursAt(s: string, m: string, i: int) {
    0 <= i && i + |m| <= |s| && s[i..i+|m|] == m
  }

  /** First occurrence at or after `i`, or -1. */
  function FindFrom(s: string, m: string, i: nat): int
    requires i <= |s|
    decreases |s| - i
  {
    if OccursAt(s, m, i) then i else if i == |s| then -1 else FindFrom(s, m, i + 1)
  }

  lemma FindFromFinds(s: string, m: string, i: nat)
    requires i <= |s|
    ensures FindFrom(s, m, i) == -1 || (i <= FindFrom(s, m, i) && OccursAt(s, m, FindFrom(s, m, i)))
    ensures forall k :: i <= k && OccursAt(s, m, k) ==> 0 <= FindFrom(s, m, i) <= k
    decreases |s| - i
  {
  }

  /** `str.count`: occurrences from `i` on, without overlap. */
  function CountFrom(s: string, m: string, i: nat): nat
    requires i <= |s| && m != []
    decreases |s| - i
  {
    FindFromFinds(s, m, i);
    var at := FindFrom(s, m, i);
    if at == -1 then 0 else 1 + CountFrom(s, m, at + |m|)
  }

  function Count(s: string, m: string): nat
    requires m != []
  {
    CountFrom(s, m, 0)
  }

  /** `m` occurs at `at` and nowhere else. */
  ghost predicate OnlyAt(s: string, m: string, at: int) {
    OccursAt(s, m, at) && forall k :: OccursAt(s, m, k) ==> k == at
  }

  // ----- markers: the opening '<' is at the front and nowhere else -----

  predicate IsMarker(m: string) {
    m != [] && m[0] == '<' && forall k :: 0 < k < |m| ==> m[k] != '<'
  }

  lemma MarkersAreMarkers()
    ensures IsMarker(MARKER_START) && IsMarker(MARKER_END)
    ensures |MARKER_START| == 25 && |MARKER_END| == 23 && MARKER_START[16] != MARKER_END[16]
  {
  }

  lemma OccursChar(s: string, m: string, i: int, j: int)
    requires OccursAt(s, m, i) && 0 <= j < |m|
    ensures s[i+j] == m[j]
  {
    assert s[i..i+|m|][j] == m[j];
  }

  /** Occurrences of markers never overlap. */
  lemma MarkersDisjoint(s: string, m: string, i: int, n: string, j: int)
    requires IsMarker(m) && IsMarker(n) && OccursAt(s, m, i) && OccursAt(s, n, j) && i < j
    ensures i + |m| <= j
  {
    if j < i + |m| {
      OccursChar(s, m, i, j - i);
      OccursChar(s, n, j, 0);
    }
  }

  lemma StartIsNotEnd(s: string, i: int)
    requires OccursAt(s, MARKER_START, i)
    ensures !OccursAt(s, MARKER_END, i)
  {
    MarkersAreMarkers();
    OccursChar(s, MARKER_START, i, 16);
    if OccursAt(s, MARKER_END, i) {
      OccursChar(s, MARKER_END, i, 16);
    }
  }

  lemma CountIsOne(s: string, m: string)
    requires IsMarker(m)
    ensures Count(s, m) == 1 <==> OnlyAt(s, m, FindFrom(s, m, 0))
    ensures Count(s, m) == 0 <==> FindFrom(s, m, 0) == -1
  {
    FindFromFinds(s, m, 0);
    var at := FindFrom(s, m, 0);
    if at != -1 {
      FindFromFinds(s, m, at + |m|);
      var next := FindFrom(s, m, at + |m|);
      if next == -1 {
        assert CountFrom(s, m, at + |m|) == 0;
        forall k | OccursAt(s, m, k) ensures k == at {
          if k > at { MarkersDisjoint(s, m, at, m, k); }
        }
      } else {
        assert OccursAt(s, m, next) && next != at;
        assert CountFrom(s, m, at + |m|) >= 1;
      }
    }
  }

  lemma OnlyAtGivesCount(s: string, m: string, at: int)
    requires IsMarker(m) && OnlyAt(s, m, at)
    ensures Count(s, m) == 1 && FindFrom(s, m, 0) == at
  {
    FindFromFinds(s, m, 0);
    CountIsOne(s, m);
  }

  // ----- parsing -----

  datatype MarkerParse =
    | NoMarkers
    | Malformed(reason: Reason)
    | Parsed(before: string, inside: string, after: string)

  datatype Reason = EndWithoutStart | StartWithoutEnd | MultiplePairs | EndBeforeStart

  function ParseMarkers(content: string): MarkerParse {
    var starts, ends := Count(content, MARKER_START), Count(content, MARKER_END);
    if starts == 0 && ends == 0 then NoMarkers
    else if starts == 0 && ends > 0 then Malformed(EndWithoutStart)
    else if starts > 0 && ends == 0 then Malformed(StartWithoutEnd)
    else if starts > 1 || ends > 1 then Malformed(MultiplePairs)
    else
      FindFromFinds(content, MARKER_START, 0);
      FindFromFinds(content, MARKER_END, 0);
      MarkersAreMarkers();
      CountIsOne(content, MARKER_START);
      CountIsOne(content, MARKER_END);
      var start, end := FindFrom(content, MARKER_START, 0), FindFrom(content, MARKER_END, 0);
      if end < start then Malformed(EndBeforeStart)
      else Parsed(content[..start], content[start..end+|MARKER_END|], content[end+|MARKER_END|..])
  }

  /** Exactly one marker of each kind, the start before the end. */
  ghost predicate OnePair(s: string, start: int, end: int) {
    start < end && OnlyAt(s, MARKER_START, start) && OnlyAt(s, MARKER_END, end)
  }

  lemma PairParses(s: string, start: int, end: int)
    requires OnePair(s, start, end)
    ensures ParseMarkers(s) == Parsed(s[..start], s[start..end+|MARKER_END|], s[end+|MARKER_END|..])
  {
    MarkersAreMarkers();
    OnlyAtGivesCount(s, MARKER_START, start);
    OnlyAtGivesCount(s, MARKER_END, end);
  }

  lemma ParsedIsPair(s: string)
    requires ParseMarkers(s).Parsed?
    ensures OnePair(s, |ParseMarkers(s).before|, |s| - |ParseMarkers(s).after| - |MARKER_END|)
  {
    ParsedShape(s);
    PairIsApart(s, FindFrom(s, MARKER_START, 0), FindFrom(s, MARKER_END, 0));
  }

  lemma PairIsApart(s: string, start: int, end: int)
    requires OnlyAt(s, MARKER_START, start) && OnlyAt(s, MARKER_END, end) && start <= end
    ensures OnePair(s, start, end)
  {
    StartIsNotEnd(s, start);
  }

  lemma ParsedShape(s: string)
    requires ParseMarkers(s).Parsed?
    ensures var start, end := FindFrom(s, MARKER_START, 0), FindFrom(s, MARKER_END, 0);
            && OnlyAt(s, MARKER_START, start) && OnlyAt(s, MARKER_END, end) && start <= end
            && |ParseMarkers(s).before| == start && |ParseMarkers(s).after| == |s| - end - |MARKER_END|
  {
    MarkersAreMarkers();
    CountIsOne(s, MARKER_START);
    CountIsOne(s, MARKER_END);
  }

  /** Parsing succeeds exactly on one well-ordered pair, and cuts the text just before and just after it. */
  lemma {:induction false} ParsedIffOnePair(s: string, start: int, end: int)
    ensures OnePair(s, start, end) <==>
            && ParseMarkers(s).Parsed?
            && start == |ParseMarkers(s).before| && end + |MARKER_END| == |s| - |ParseMarkers(s).after|
    ensures OnePair(s, start, end) ==>
            ParseMarkers(s) == Parsed(s[..start], s[start..end+|MARKER_END|], s[end+|MARKER_END|..])
  {
    if OnePair(s, start, end) { PairParses(s, start, end); }
    if ParseMarkers(s).Parsed? { ParsedIsPair(s); }
  }

  ghost predicate Occurs(s: string, m: string) {
    exists k :: OccursAt(s, m, k)
  }

  ghost predicate OccursTwice(s: string, m: string) {
    exists j, k :: OccursAt(s, m, j) && OccursAt(s, m, k) && j != k
  }

  lemma CountsSay(s: string, m: string)
    requires IsMarker(m)
    ensures Count(s, m) > 0 <==> Occurs(s, m)
    ensures Count(s, m) > 1 <==> OccursTwice(s, m)
  {
    FindFromFinds(s, m, 0);
    CountIsOne(s, m);
    var at := FindFrom(s, m, 0);
    if at != -1 && Count(s, m) > 1 {
      var k :| OccursAt(s, m, k) && k != at;
      assert OccursAt(s, m, at);
    }
  }

  /** Each of the other answers by its cause. */
  lemma {:induction false} RefusedIff(s: string)
    ensures ParseMarkers(s).NoMarkers? <==> !Occurs(s, MARKER_START) && !Occurs(s, MARKER_END)
    ensures ParseMarkers(s) == Malformed(EndWithoutStart) <==> !Occurs(s, MARKER_START) && Occurs(s, MARKER_END)
    ensures ParseMarkers(s) == Malformed(StartWithoutEnd) <==> Occurs(s, MARKER_START) && !Occurs(s, MARKER_END)
    ensures ParseMarkers(s) == Malformed(MultiplePairs) <==>
              && Occurs(s, MARKER_START) && Occurs(s, MARKER_END)
              && (OccursTwice(s, MARKER_START) || OccursTwice(s, MARKER_END))
    ensures ParseMarkers(s) == Malformed(EndBeforeStart) <==>
              exists i, j :: OnlyAt(s, MARKER_END, i) && OnlyAt(s, MARKER_START, j) && i < j
  {
    MarkersAreMarkers();
    CountsSay(s, MARKER_START);
    CountsSay(s, MARKER_END);
    CountIsOne(s, MARKER_START);
    CountIsOne(s, MARKER_END);
    EndFirstIff(s);
  }

  lemma EndFirstIff(s: string)
    ensures ParseMarkers(s) == Malformed(EndBeforeStart) <==>
              exists i, j :: OnlyAt(s, MARKER_END, i) && OnlyAt(s, MARKER_START, j) && i < j
  {
    MarkersAreMarkers();
    CountIsOne(s, MARKER_START);
    CountIsOne(s, MARKER_END);
    var start, end := FindFrom(s, MARKER_START, 0), FindFrom(s, MARKER_END, 0);
    if exists i, j :: OnlyAt(s, MARKER_END, i) && OnlyAt(s, MARKER_START, j) && i < j {
      var i, j :| OnlyAt(s, MARKER_END, i) && OnlyAt(s, MARKER_START, j) && i < j;
      OnlyAtGivesCount(s, MARKER_START, j);
      OnlyAtGivesCount(s, MARKER_END, i);
    }
    if ParseMarkers(s) == Malformed(EndBeforeStart) {
      assert OnlyAt(s, MARKER_END, end) && OnlyAt(s, MARKER_START, start) && end < start;
    }
  }

  lemma Openings(m: string, text: string, n: string)
    requires IsMarker(m) && IsMarker(n) && '<' !in text
    ensures var s := m + (text + n);
            OccursAt(s, m, 0) && OccursAt(s, n, |m| + |text|)
            && forall k :: 0 <= k < |s| && s[k] == '<' ==> k == 0 || k == |m| + |text|
  {
    assert (m + (text + n))[|m|+|text|..] == n;
  }

  lemma OnlyAtOpenings(s: string, m: string, at: int, other: int)
    requires IsMarker(m) && OccursAt(s, m, at) && !OccursAt(s, m, other)
    requires forall k :: 0 <= k < |s| && s[k] == '<' ==> k == at || k == other
    ensures OnlyAt(s, m, at)
  {
    forall k | OccursAt(s, m, k) ensures k == at {
      OccursChar(s, m, k, 0);
    }
  }

  /** A text without '<' between the two markers is a block. */
  lemma {:induction false} PlainTextBetweenMarkers(text: string)
    requires '<' !in text
    ensures IsBlock("<!-- VE:MANAGED:START -->" + (text + "<!-- VE:MANAGED:END -->"))
  {
    var block, end := MARKER_START + (text + MARKER_END), |MARKER_START| + |text|;
    MarkersAreMarkers();
    Openings(MARKER_START, text, MARKER_END);
    StartIsNotEnd(block, 0);
    if OccursAt(block, MARKER_START, end) { StartIsNotEnd(block, end); }
    OnlyAtOpenings(block, MARKER_START, 0, end);
    OnlyAtOpenings(block, MARKER_END, end, 0);
  }

  // ----- the splice -----

  lemma OccursLeft(a: string, b: string, m: string, k: int)
    requires k + |m| <= |a|
    ensures OccursAt(a + b, m, k) <==> OccursAt(a, m, k)
  {
    if 0 <= k { assert (a + b)[k..k+|m|] == a[k..k+|m|]; }
  }

  lemma OccursRight(a: string, b: string, m: string, k: int)
    requires |a| <= k
    ensures OccursAt(a + b, m, k) <==> OccursAt(b, m, k - |a|)
  {
    if k + |m| <= |a + b| { assert (a + b)[k..k+|m|] == b[k-|a|..k-|a|+|m|]; }
  }

  predicate IsOurs(m: string) {
    m == MARKER_START || m == MARKER_END
  }

  ghost predicate Free(s: string) {
    forall m, k :: IsOurs(m) ==> !OccursAt(s, m, k)
  }

  /** From a start marker to an end marker, and no other marker in between. */
  ghost predicate IsBlock(block: string) {
    |block| >= |MARKER_END| && OnePair(block, 0, |block| - |MARKER_END|)
  }

  function Whole(a: string, block: string, c: string): string {
    a + (block + c)
  }

  lemma BlockOccurs(a: string, block: string, c: string, m: string, k: int)
    requires |a| <= k && k + |m| <= |a| + |block|
    ensures OccursAt(Whole(a, block, c), m, k) <==> OccursAt(block, m, k - |a|)
  {
    OccursRight(a, block + c, m, k);
    OccursLeft(block, c, m, k - |a|);
  }

  lemma PairOccurs(a: string, block: string, c: string)
    requires IsBlock(block)
    ensures OccursAt(Whole(a, block, c), MARKER_START, |a|)
    ensures OccursAt(Whole(a, block, c), MARKER_END, |a| + |block| - |MARKER_END|)
  {
    BlockOccurs(a, block, c, MARKER_START, |a|);
    BlockOccurs(a, block, c, MARKER_END, |a| + |block| - |MARKER_END|);
  }

  /** No marker reaches across the first cut: it would overlap the start marker of the block. */
  lemma NoneBeforeBlock(a: string, block: string, c: string, m: string, k: int)
    requires Free(a) && IsBlock(block) && IsOurs(m) && OccursAt(Whole(a, block, c), m, k)
    ensures |a| <= k
  {
    MarkersAreMarkers();
    PairOccurs(a, block, c);
    if k < |a| {
      MarkersDisjoint(Whole(a, block, c), m, k, MARKER_START, |a|);
      OccursLeft(a, block + c, m, k);
    }
  }

  /** No marker reaches across the second cut, and none follows it. */
  lemma NoneAfterBlock(a: string, block: string, c: string, m: string, k: int)
    requires Free(c) && IsBlock(block) && IsOurs(m) && OccursAt(Whole(a, block, c), m, k)
    ensures k + |m| <= |a| + |block|
  {
    MarkersAreMarkers();
    PairOccurs(a, block, c);
    var s, e := Whole(a, block, c), |a| + |block| - |MARKER_END|;
    if k < e {
      MarkersDisjoint(s, m, k, MARKER_END, e);
    } else if k == e {
      if m == MARKER_START { StartIsNotEnd(s, k); }
    } else {
      MarkersDisjoint(s, MARKER_END, e, m, k);
      NoneInRest(a, block, c, m, k);
    }
  }

  lemma NoneInRest(a: string, block: string, c: string, m: string, k: int)
    requires Free(c) && IsOurs(m) && |a| + |block| <= k
    ensures !OccursAt(Whole(a, block, c), m, k)
  {
    OccursRight(a, block + c, m, k);
    OccursRight(block, c, m, k - |a|);
  }

  /** A block between two texts without markers is the one pair of the whole. */
  lemma {:induction false} SurroundedBlockIsPair(a: string, block: string, c: string)
    requires Free(a) && Free(c) && IsBlock(block)
    ensures OnePair(Whole(a, block, c), |a|, |a| + |block| - |MARKER_END|)
  {
    var s := Whole(a, block, c);
    PairOccurs(a, block, c);
    forall m, k | IsOurs(m) && OccursAt(s, m, k) ensures OccursAt(block, m, k - |a|) {
      NoneBeforeBlock(a, block, c, m, k);
      NoneAfterBlock(a, block, c, m, k);
      BlockOccurs(a, block, c, m, k);
    }
    assert IsOurs(MARKER_START) && IsOurs(MARKER_END);
  }

  /** And the other way round: what stands around the one pair of a text has no markers. */
  lemma {:induction false} PairHasFreeSurroundings(a: string, block: string, c: string)
    requires |block| >= |MARKER_END| && OnePair(Whole(a, block, c), |a|, |a| + |block| - |MARKER_END|)
    ensures Free(a) && Free(c) && IsBlock(block)
  {
    MarkersAreMarkers();
    MarkersDisjoint(Whole(a, block, c), MARKER_START, |a|, MARKER_END, |a| + |block| - |MARKER_END|);
    forall m, k | IsOurs(m) ensures !OccursAt(a, m, k) && !OccursAt(c, m, k) {
      OutsideTheBlock(a, block, c, m, k);
    }
    BlockOfPair(a, block, c);
  }

  lemma OutsideTheBlock(a: string, block: string, c: string, m: string, k: int)
    requires |block| >= |MARKER_END| && OnePair(Whole(a, block, c), |a|, |a| + |block| - |MARKER_END|) && IsOurs(m)
    ensures !OccursAt(a, m, k) && !OccursAt(c, m, k)
  {
    MarkersAreMarkers();
    if k + |m| <= |a| { OccursLeft(a, block + c, m, k); }
    if k >= 0 {
      OccursRight(block, c, m, k + |block|);
      OccursRight(a, block + c, m, k + |block| + |a|);
    }
  }

  lemma BlockOfPair(a: string, block: string, c: string)
    requires |block| >= |MARKER_START| + |MARKER_END|
    requires OnePair(Whole(a, block, c), |a|, |a| + |block| - |MARKER_END|)
    ensures IsBlock(block)
  {
    forall k ensures OccursAt(block, MARKER_START, k) <==> k == 0 {
      InBlock(a, block, c, MARKER_START, k);
    }
    forall k ensures OccursAt(block, MARKER_END, k) <==> k == |block| - |MARKER_END| {
      InBlock(a, block, c, MARKER_END, k);
    }
  }

  lemma InBlock(a: string, block: string, c: string, m: string, k: int)
    ensures OccursAt(block, m, k) <==> 0 <= k && k + |m| <= |block| && OccursAt(Whole(a, block, c), m, k + |a|)
  {
    if 0 <= k && k + |m| <= |block| { BlockOccurs(a, block, c, m, k + |a|); }
  }

  lemma ParsedPieces(s: string)
    requires ParseMarkers(s).Parsed?
    ensures var r := ParseMarkers(s);
            s == Whole(r.before, r.inside, r.after) && Free(r.before) && Free(r.after) && IsBlock(r.inside)
  {
    ParsedIsPair(s);
    ParsedCovers(s);
    PiecesOfPair(s, ParseMarkers(s));
  }

  lemma PiecesOfPair(s: string, r: MarkerParse)
    requires r.Parsed? && s == Whole(r.before, r.inside, r.after)
    requires OnePair(s, |r.before|, |s| - |r.after| - |MARKER_END|)
    ensures Free(r.before) && Free(r.after) && IsBlock(r.inside)
  {
    PairHasFreeSurroundings(r.before, r.inside, r.after);
  }

  lemma ParsedCovers(s: string)
    requires ParseMarkers(s).Parsed?
    ensures s == Whole(ParseMarkers(s).before, ParseMarkers(s).inside, ParseMarkers(s).after)
  {
    ParsedIsPair(s);
    var r := ParseMarkers(s);
    var start, end := |r.before|, |s| - |r.after| - |MARKER_END|;
    PairParses(s, start, end);
    ThreeSlices(s, start, end + |MARKER_END|);
  }

  lemma ThreeSlices(s: string, i: nat, j: nat)
    requires i <= j <= |s|
    ensures s == Whole(s[..i], s[i..j], s[j..])
  {
  }

  lemma WholeSlices(a: string, block: string, c: string)
    ensures var s := Whole(a, block, c);
            s[..|a|] == a && s[|a|..|a|+|block|] == block && s[|a|+|block|..] == c
  {
  }

  lemma PiecesParse(a: string, block: string, c: string)
    requires Free(a) && Free(c) && IsBlock(block)
    ensures ParseMarkers(Whole(a, block, c)) == Parsed(a, block, c)
  {
    SurroundedBlockIsPair(a, block, c);
    PairGivesPieces(a, block, c, |a| + |block| - |MARKER_END|);
  }

  lemma PairGivesPieces(a: string, block: string, c: string, end: int)
    requires end + |MARKER_END| == |a| + |block| && OnePair(Whole(a, block, c), |a|, end)
    ensures ParseMarkers(Whole(a, block, c)) == Parsed(a, block, c)
  {
    PairParses(Whole(a, block, c), |a|, end);
    WholeSlices(a, block, c);
  }

  /** Replacing the block of one text by the block of another: the surroundings are kept exactly, the markers are
      found again around the new block, and nothing else is taken for a marker. */
  lemma {:induction false} SpliceParses(existing: string, rendered: string)
    requires ParseMarkers(existing).Parsed? && ParseMarkers(rendered).Parsed?
    ensures var e, r := ParseMarkers(existing), ParseMarkers(rendered);
            ParseMarkers(Whole(e.before, r.inside, e.after)) == Parsed(e.before, r.inside, e.after)
  {
    ParsedPieces(existing);
    ParsedPieces(rendered);
    PiecesParse(ParseMarkers(existing).before, ParseMarkers(rendered).inside, ParseMarkers(existing).after);
  }

  // ----- initialising a project directory -----

  datatype ClaudeFile = Missing | Regular(text: string) | LinkToAgents | LinkElsewhere

  datatype Report = Created | SkippedQuietly | SkippedWith(reason: Reason) | TemplateBroken

  /** What re-initialising makes of an existing text. */
  function Updated(existing: string, rendered: string): string {
    var e, r := ParseMarkers(existing), ParseMarkers(rendered);
    if e.Parsed? && r.Parsed? then Whole(e.before, r.inside, e.after) else existing
  }

  /** A second run with the same template changes nothing. */
  lemma UpdateIsIdempotent(existing: string, rendered: string)
    ensures Updated(Updated(existing, rendered), rendered) == Updated(existing, rendered)
  {
    if ParseMarkers(existing).Parsed? && ParseMarkers(rendered).Parsed? {
      SpliceParses(existing, rendered);
    }
  }

  /** Whatever templates come in between, the last one decides. */
  lemma {:induction false} LastTemplateWins(existing: string, first: string, last: string)
    requires ParseMarkers(first).Parsed? && ParseMarkers(last).Parsed?
    ensures Updated(Updated(existing, first), last) == Updated(existing, last)
  {
    if ParseMarkers(existing).Parsed? {
      SpliceParses(existing, first);
    }
  }

  /** The text that is there before the run: AGENTS.md, or a CLAUDE.md that takes its place. */
  function Existing(agents: Option<string>, claude: ClaudeFile): Option<string> {
    if agents.Some? then agents else if claude.Regular? then Some(claude.text) else None
  }

  class ProjectDirectory {
    var agents: Option<string>
    var claude: ClaudeFile

    constructor (agents: Option<string>, claude: ClaudeFile)
      ensures this.agents == agents && this.claude == claude
    {
      this.agents, this.claude := agents, claude;
    }

    /** `_init_agents_md` with the template already rendered. */
    method InitAgentsMd(rendered: string) returns (report: Report, bothRegular: bool)
      modifies this
      ensures agents.Some?
      ensures old(agents).Some? ==> agents.value == Updated(old(agents).value, rendered)
      ensures old(agents).None? ==>
        agents.value == if old(claude).Regular? then Updated(old(claude).text, rendered) else rendered
      ensures bothRegular <==> old(agents).Some? && old(claude).Regular?
      ensures claude == if bothRegular then old(claude) else LinkToAgents
      ensures report == Created <==>
        (old(agents).None? && !old(claude).Regular?)
        || (ParseMarkers(rendered).Parsed?
            && ParseMarkers(if old(agents).Some? then old(agents).value else old(claude).text).Parsed?)
      ensures var text := Existing(old(agents), old(claude));
        && (report == SkippedQuietly <==> text.Some? && ParseMarkers(text.value).NoMarkers?)
        && (forall reason :: report == SkippedWith(reason) <==>
              text.Some? && ParseMarkers(text.value) == Malformed(reason))
        && (report == TemplateBroken <==>
              text.Some? && ParseMarkers(text.value).Parsed? && !ParseMarkers(rendered).Parsed?)
    {
      if claude.Regular? && agents.None? {
        agents, claude := Some(claude.text), Missing;
      }
      if agents.None? {
        agents := Some(rendered);
        report := Created;
      } else {
        var parse := ParseMarkers(agents.value);
        match parse {
          case Malformed(reason) => report := SkippedWith(reason);
          case NoMarkers => report := SkippedQuietly;
          case Parsed(before, inside, after) =>
            var template := ParseMarkers(rendered);
            if !template.Parsed? {
              report := TemplateBroken;
            } else {
              agents := Some(Whole(before, template.inside, after));
              report := Created;
            }
        }
      }
      bothRegular := claude.Regular?;
      if !bothRegular {
        claude := LinkToAgents;
      }
    }
  }
}
