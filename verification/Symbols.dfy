/** Symbolic references: parsing, containment by string prefix, overlap. */
module Symbols {
  import opened Options

  // ----- searches -----

  function HashFrom(s: string, i: nat): int
    requires i <= |s|
    decreases |s| - i
  {
    if i == |s| then -1 else if s[i] == '#' then i else HashFrom(s, i + 1)
  }

  /** `find("#")`: the first position, or -1. */
  function FindHash(s: string): int {
    HashFrom(s, 0)
  }

  predicate ColonsAt(s: string, i: int) {
    0 <= i < |s| - 1 && s[i] == ':' && s[i+1] == ':'
  }

  function ColonsFrom(s: string, i: nat): int
    requires i <= |s|
    decreases |s| - i
  {
    if i == |s| then -1 else if ColonsAt(s, i) then i else ColonsFrom(s, i + 1)
  }

  /** `find("::")`. */
  function FindColons(s: string): int {
    ColonsFrom(s, 0)
  }

  lemma HashFromFinds(s: string, i: nat)
    requires i <= |s|
    ensures HashFrom(s, i) == -1 || (i <= HashFrom(s, i) < |s| && s[HashFrom(s, i)] == '#')
    ensures forall k :: i <= k < |s| && s[k] == '#' ==> 0 <= HashFrom(s, i) <= k
    decreases |s| - i
  {
  }

  lemma ColonsFromFinds(s: string, i: nat)
    requires i <= |s|
    ensures ColonsFrom(s, i) == -1 || (i <= ColonsFrom(s, i) && ColonsAt(s, ColonsFrom(s, i)))
    ensures forall k :: i <= k && ColonsAt(s, k) ==> 0 <= ColonsFrom(s, i) <= k
    decreases |s| - i
  {
  }

  /** What makes a position the first '#'. */
  lemma FindHashIs(s: string, r: int)
    requires -1 <= r < |s| && (r >= 0 ==> s[r] == '#')
    requires forall k :: 0 <= k < (if r == -1 then |s| else r) ==> s[k] != '#'
    ensures FindHash(s) == r
  {
    HashFromFinds(s, 0);
  }

  lemma FindColonsIs(s: string, r: int)
    requires r == -1 || ColonsAt(s, r)
    requires forall k :: ColonsAt(s, k) ==> 0 <= r <= k
    ensures FindColons(s) == r
  {
    ColonsFromFinds(s, 0);
  }

  // ----- parsing -----

  datatype Ref = Ref(project: string, file: string, symbol: Option<string>)

  /** The part before the first '#', where a project qualifier may stand. */
  function CheckPortion(ref: string): (r: string)
    ensures |r| <= |ref|
  {
    HashFromFinds(ref, 0);
    var hash := FindHash(ref);
    if hash == -1 then ref else ref[..hash]
  }

  function FileAndSymbol(project: string, text: string): Ref {
    HashFromFinds(text, 0);
    var hash := FindHash(text);
    if hash == -1 then Ref(project, text, None) else Ref(project, text[..hash], Some(text[hash+1..]))
  }

  /** `None` is the ValueError for a reference without a project. */
  function ParseReference(ref: string, currentProject: Option<string>): Option<Ref> {
    ColonsFromFinds(CheckPortion(ref), 0);
    var colons := FindColons(CheckPortion(ref));
    if colons != -1 then Some(FileAndSymbol(ref[..colons], ref[colons+2..]))
    else if currentProject.Some? then Some(FileAndSymbol(currentProject.value, ref))
    else None
  }

  function Parse(ref: string): Option<Ref> {
    ParseReference(ref, None)
  }

  function Tail(symbol: Option<string>): string {
    if symbol.None? then "" else "#" + symbol.value
  }

  function Format(r: Ref): string {
    r.project + "::" + (r.file + Tail(r.symbol))
  }

  /** No '#' in the project or the file, and no "::" in the project, not even one that its last character starts. */
  predicate Clean(project: string) {
    NoHash(project) && FindColons(project + ":") == -1
  }

  predicate NoHash(s: string) {
    forall k :: 0 <= k < |s| ==> s[k] != '#'
  }

  predicate Canonical(r: Ref) {
    Clean(r.project) && NoHash(r.file)
  }

  lemma SplitFileAndSymbol(project: string, file: string, symbol: Option<string>)
    requires NoHash(file)
    ensures FileAndSymbol(project, file + Tail(symbol)) == Ref(project, file, symbol)
  {
    var text := file + Tail(symbol);
    if symbol.Some? {
      FindHashIs(text, |file|);
      assert text[..|file|] == file && text[|file|+1..] == symbol.value;
    } else {
      assert text == file;
      FindHashIs(text, -1);
    }
  }

  lemma PortionOfFormat(r: Ref)
    requires Canonical(r)
    ensures CheckPortion(Format(r)) == r.project + "::" + r.file
  {
    var q, front := Format(r), r.project + "::" + r.file;
    if r.symbol.Some? {
      assert q == front + ("#" + r.symbol.value);
      FindHashIs(q, |front|);
      assert q[..|front|] == front;
    } else {
      assert q == front;
      FindHashIs(q, -1);
    }
  }

  lemma ColonsOfClean(project: string, file: string)
    requires Clean(project)
    ensures FindColons(project + "::" + file) == |project|
  {
    var front := project + "::" + file;
    forall k | ColonsAt(front, k) ensures |project| <= k {
      ColonsFromFinds(project + ":", 0);
      assert k < |project| ==> ColonsAt(project + ":", k);
    }
    FindColonsIs(front, |project|);
  }

  /** Every canonical reference is read back from its text. */
  lemma {:induction false} ParseFormat(r: Ref)
    requires Canonical(r)
    ensures Parse(Format(r)) == Some(r)
  {
    var q := Format(r);
    PortionOfFormat(r);
    ColonsOfClean(r.project, r.file);
    assert q[..|r.project|] == r.project;
    assert q[|r.project|+2..] == r.file + Tail(r.symbol);
    SplitFileAndSymbol(r.project, r.file, r.symbol);
  }

  lemma FileAndSymbolText(project: string, text: string)
    ensures var r := FileAndSymbol(project, text);
            r.project == project && r.file + Tail(r.symbol) == text && NoHash(r.file)
  {
    HashFromFinds(text, 0);
    var hash := FindHash(text);
    if hash != -1 {
      assert text == text[..hash] + ("#" + text[hash+1..]);
    }
  }

  lemma PortionIsPrefix(q: string)
    ensures CheckPortion(q) <= q && NoHash(CheckPortion(q))
  {
    HashFromFinds(q, 0);
  }

  lemma QualifierIsClean(portion: string, colons: nat)
    requires NoHash(portion) && FindColons(portion) == colons
    ensures ColonsAt(portion, colons) && Clean(portion[..colons])
  {
    ColonsFromFinds(portion, 0);
    var project := portion[..colons];
    forall k | ColonsAt(project + ":", k) ensures false {
      assert ColonsAt(portion, k);
    }
    FindColonsIs(project + ":", -1);
  }

  lemma SplitAtColons(q: string, portion: string, colons: nat)
    requires portion <= q && ColonsAt(portion, colons)
    ensures q == q[..colons] + "::" + q[colons+2..] && q[..colons] == portion[..colons]
  {
  }

  /** Every text that parses is the text of the canonical reference that it parses to. */
  lemma {:induction false} FormatParse(q: string)
    requires Parse(q).Some?
    ensures Canonical(Parse(q).value) && Format(Parse(q).value) == q
  {
    var portion := CheckPortion(q);
    var colons := FindColons(portion);
    ColonsFromFinds(portion, 0);
    PortionIsPrefix(q);
    QualifierIsClean(portion, colons);
    SplitAtColons(q, portion, colons);
    FileAndSymbolText(q[..colons], q[colons+2..]);
    var r := Parse(q).value;
    assert Format(r) == q[..colons] + "::" + q[colons+2..];
  }

  function QualifyRef(ref: string, project: string): string {
    if FindColons(CheckPortion(ref)) != -1 then ref else project + "::" + ref
  }

  function SymbolOver(parent: string, child: string): bool {
    parent == child || parent + "::" <= child
  }

  /** Containment of parsed references. */
  predicate Contains(parent: Ref, child: Ref) {
    && parent.project == child.project
    && parent.file == child.file
    && (parent.symbol.None? || (child.symbol.Some? && SymbolOver(parent.symbol.value, child.symbol.value)))
  }

  function IsParentOf(parent: string, child: string): Option<bool> {
    if Parse(parent).None? || Parse(child).None? then None
    else Some(Contains(Parse(parent).value, Parse(child).value))
  }

  // ----- the same on the texts -----

  /** Two colons in a row, and no '#' before them. */
  predicate Qualified(q: string) {
    exists k :: 0 <= k < |q| - 1 && q[k] == ':' && q[k+1] == ':' && '#' !in q[..k]
  }

  lemma ParsesIff(q: string)
    ensures Parse(q).Some? <==> Qualified(q)
    ensures FindColons(CheckPortion(q)) != -1 <==> Qualified(q)
  {
    HashFromFinds(q, 0);
    var portion := CheckPortion(q);
    ColonsFromFinds(portion, 0);
    var colons := FindColons(portion);
    if colons != -1 {
      PortionIsPrefix(q);
      assert q[colons] == ':' && q[colons+1] == ':' && '#' !in q[..colons];
    }
    if Qualified(q) {
      var k :| 0 <= k < |q| - 1 && q[k] == ':' && q[k+1] == ':' && '#' !in q[..k];
      assert FindHash(q) != -1 ==> k + 1 < FindHash(q);
      assert ColonsAt(portion, k);
    }
  }

  lemma FormatInjective(a: Ref, b: Ref)
    requires Canonical(a) && Canonical(b) && Format(a) == Format(b)
    ensures a == b
  {
    ParseFormat(a);
    ParseFormat(b);
  }

  lemma LongerSymbol(r: Ref, more: string)
    requires r.symbol.Some?
    ensures Format(r.(symbol := Some(r.symbol.value + more))) == Format(r) + more
  {
  }

  lemma LongerText(a: string, more: string, b: string) returns (rest: string)
    requires a + more <= b
    ensures b == a + (more + rest)
  {
    rest := b[|a + more|..];
  }

  lemma ContainsIsPrefix(parent: Ref, child: Ref)
    requires Canonical(parent) && Canonical(child)
    ensures Contains(parent, child) <==>
              || Format(parent) == Format(child)
              || Format(parent) + (if parent.symbol.Some? then "::" else "#") <= Format(child)
  {
    if Contains(parent, child) && parent != child {
      if parent.symbol.None? {
        assert Format(child) == Format(parent) + "#" + child.symbol.value;
      } else {
        var rest := LongerText(parent.symbol.value, "::", child.symbol.value);
        LongerSymbol(parent, "::" + rest);
        assert Format(child) == Format(parent) + "::" + rest;
      }
    }
    if Format(parent) == Format(child) {
      FormatInjective(parent, child);
    } else if Format(parent) + (if parent.symbol.Some? then "::" else "#") <= Format(child) {
      LongerTextIsBelow(parent, child);
    }
  }

  lemma LongerTextIsBelow(parent: Ref, child: Ref)
    requires Canonical(parent) && Canonical(child)
    requires Format(parent) + (if parent.symbol.Some? then "::" else "#") <= Format(child)
    ensures Contains(parent, child)
  {
    if parent.symbol.None? {
      var rest := LongerText(Format(parent), "#", Format(child));
      var r := parent.(symbol := Some(rest));
      assert Format(r) == Format(parent) + ("#" + rest);
      FormatInjective(r, child);
    } else {
      var rest := LongerText(Format(parent), "::", Format(child));
      SymbolIsLonger(parent, child, rest);
    }
  }

  lemma SymbolIsLonger(parent: Ref, child: Ref, rest: string)
    requires Canonical(parent) && Canonical(child) && parent.symbol.Some?
    requires Format(child) == Format(parent) + ("::" + rest)
    ensures Contains(parent, child)
  {
    var symbol := parent.symbol.value;
    LongerSymbol(parent, "::" + rest);
    FormatInjective(parent.(symbol := Some(symbol + ("::" + rest))), child);
    assert symbol + ("::" + rest) == (symbol + "::") + rest;
  }

  lemma HashIffSymbol(r: Ref)
    requires Canonical(r)
    ensures '#' in Format(r) <==> r.symbol.Some?
  {
    if r.symbol.Some? {
      assert Format(r)[|r.project| + 2 + |r.file|] == '#';
    }
  }

  /** Parenthood read off the two texts: the same text, or its own followed by '#' or, where it has one already, by
      "::". An unqualified text is an error. */
  lemma IsParentOfIff(parent: string, child: string)
    ensures IsParentOf(parent, child).Some? <==> Qualified(parent) && Qualified(child)
    ensures IsParentOf(parent, child) == Some(true) <==>
              && Qualified(parent) && Qualified(child)
              && (parent == child || parent + (if '#' in parent then "::" else "#") <= child)
  {
    ParsesIff(parent);
    ParsesIff(child);
    if Qualified(parent) && Qualified(child) {
      FormatParse(parent);
      FormatParse(child);
      ContainsIsPrefix(Parse(parent).value, Parse(child).value);
      HashIffSymbol(Parse(parent).value);
    }
  }

  /** Only an unqualified text gets the project in front of it. */
  lemma QualifyRefIs(ref: string, project: string)
    ensures QualifyRef(ref, project) == if Qualified(ref) then ref else project + "::" + ref
  {
    ParsesIff(ref);
  }

  // ----- containment is a partial order -----

  lemma ContainsIsPartialOrder(a: Ref, b: Ref, c: Ref)
    ensures Contains(a, a)
    ensures Contains(a, b) && Contains(b, a) ==> a == b
    ensures Contains(a, b) && Contains(b, c) ==> Contains(a, c)
  {
    if Contains(a, b) && Contains(b, c) && a.symbol.Some? {
      var sa, sb, sc := a.symbol.value, b.symbol.value, c.symbol.value;
      if sa != sb && sb != sc {
        PrefixTransitive(sa + "::", sb, sc);
      }
    }
  }

  lemma PrefixTransitive(p: string, q: string, r: string)
    requires p <= q && q + "::" <= r
    ensures p <= r
  {
    assert q <= q + "::";
  }

  /** Two symbols that differ by one trailing colon: both stand over the symbol with two more. */
  predicate Twins(a: Ref, b: Ref) {
    && a.project == b.project && a.file == b.file && a.symbol.Some? && b.symbol.Some?
    && (b.symbol.value == a.symbol.value + ":" || a.symbol.value == b.symbol.value + ":")
  }

  lemma PrefixesNest(p: string, q: string, s: string)
    requires p <= s && q <= s && |p| <= |q|
    ensures p <= q
  {
  }

  lemma SymbolsOverOne(a: string, b: string, s: string)
    requires SymbolOver(a, s) && SymbolOver(b, s) && |a| <= |b|
    ensures SymbolOver(a, b) || b == a + ":"
  {
    if a != s {
      assert a + "::" <= s && b <= s;
      if |b| >= |a| + 2 {
        PrefixesNest(a + "::", b, s);
      } else {
        PrefixesNest(b, a + "::", s);
        if |b| == |a| {
          assert b == (a + "::")[..|a|] == a;
        } else {
          assert b == (a + "::")[..|a|+1] == a + ":";
        }
      }
    }
  }

  /** The containers of one reference form a chain, but for twins. */
  lemma {:induction false} ContainersFormChain(a: Ref, b: Ref, r: Ref)
    requires Contains(a, r) && Contains(b, r)
    ensures Contains(a, b) || Contains(b, a) || Twins(a, b)
  {
    if a.symbol.Some? && b.symbol.Some? {
      if |a.symbol.value| <= |b.symbol.value| {
        SymbolsOverOne(a.symbol.value, b.symbol.value, r.symbol.value);
      } else {
        SymbolsOverOne(b.symbol.value, a.symbol.value, r.symbol.value);
      }
    }
  }

  // ----- overlap -----

  /** What the comparison of one pair gives; `None` is a ValueError. */
  function Compare(a: string, b: string, project: string): Option<bool> {
    var qa, qb := QualifyRef(a, project), QualifyRef(b, project);
    var forward := IsParentOf(qa, qb);
    if forward == Some(false) then IsParentOf(qb, qa) else forward
  }

  predicate PairOverlaps(a: string, b: string, project: string) {
    Compare(a, b, project) == Some(true)
  }

  predicate PairRaises(a: string, b: string, project: string) {
    Compare(a, b, project) == None
  }

  predicate ListsOverlap(refsA: seq<string>, refsB: seq<string>, project: string) {
    exists i, j :: 0 <= i < |refsA| && 0 <= j < |refsB| && PairOverlaps(refsA[i], refsB[j], project)
  }

  predicate ListsRaise(refsA: seq<string>, refsB: seq<string>, project: string) {
    exists i, j :: 0 <= i < |refsA| && 0 <= j < |refsB| && PairRaises(refsA[i], refsB[j], project)
  }

  /** The inner loop: one reference against a list, left at the first overlap or error. */
  method CompareWithAll(a: string, refsB: seq<string>, project: string) returns (overlap: Option<bool>)
    ensures overlap == Some(true) ==> exists j :: 0 <= j < |refsB| && PairOverlaps(a, refsB[j], project)
    ensures overlap == None ==> exists j :: 0 <= j < |refsB| && PairRaises(a, refsB[j], project)
    ensures overlap == Some(false) ==>
              forall j :: 0 <= j < |refsB| ==> !PairOverlaps(a, refsB[j], project) && !PairRaises(a, refsB[j], project)
  {
    for j := 0 to |refsB|
      invariant forall k :: 0 <= k < j ==>
                  !PairOverlaps(a, refsB[k], project) && !PairRaises(a, refsB[k], project)
    {
      var result := Compare(a, refsB[j], project);
      if result != Some(false) {
        return result;
      }
    }
    overlap := Some(false);
  }

  method ComputeSymbolicOverlap(refsA: seq<string>, refsB: seq<string>, project: string)
    returns (overlap: Option<bool>)
    ensures overlap == Some(true) ==> ListsOverlap(refsA, refsB, project)
    ensures overlap == Some(false) ==> !ListsOverlap(refsA, refsB, project) && !ListsRaise(refsA, refsB, project)
    ensures overlap == None ==> ListsRaise(refsA, refsB, project)
  {
    if refsA == [] || refsB == [] {
      return Some(false);
    }
    for i := 0 to |refsA|
      invariant forall k, j :: 0 <= k < i && 0 <= j < |refsB| ==>
                  !PairOverlaps(refsA[k], refsB[j], project) && !PairRaises(refsA[k], refsB[j], project)
    {
      var result := CompareWithAll(refsA[i], refsB, project);
      if result != Some(false) {
        return result;
      }
    }
    overlap := Some(false);
  }

  /** `r` lies under `q`: the meaning of a reference is the set of references under it. */
  predicate Under(q: string, r: string) {
    IsParentOf(q, r) == Some(true)
  }

  ghost predicate Intersect(a: string, b: string, project: string) {
    exists r :: Under(QualifyRef(a, project), r) && Under(QualifyRef(b, project), r)
  }

  predicate TwinRefs(a: string, b: string, project: string) {
    var qa, qb := Parse(QualifyRef(a, project)), Parse(QualifyRef(b, project));
    qa.Some? && qb.Some? && Twins(qa.value, qb.value)
  }

  /** A project name without '#' makes every reference parse. */
  lemma QualifiedParses(ref: string, project: string)
    requires NoHash(project)
    ensures Parse(QualifyRef(ref, project)).Some?
  {
    var q := QualifyRef(ref, project);
    if FindColons(CheckPortion(ref)) == -1 {
      HashFromFinds(q, 0);
      assert ColonsAt(CheckPortion(q), |project|);
      ColonsFromFinds(CheckPortion(q), 0);
    } else {
      ColonsFromFinds(CheckPortion(ref), 0);
    }
  }

  function Longer(r: Ref, t: string): Ref
    requires r.symbol.Some?
  {
    r.(symbol := Some(r.symbol.value + t))
  }

  lemma FormatLonger(r: Ref, t: string)
    requires r.symbol.Some?
    ensures Format(Longer(r, t)) == Format(r) + t
  {
    assert Tail(Longer(r, t).symbol) == Tail(r.symbol) + t;
    assert r.file + (Tail(r.symbol) + t) == (r.file + Tail(r.symbol)) + t;
  }

  /** More text after the symbol is more symbol. */
  lemma ParseAppend(r: Ref, t: string)
    requires Canonical(r) && r.symbol.Some?
    ensures Parse(Format(r) + t) == Some(Longer(r, t))
  {
    FormatLonger(r, t);
    ParseFormat(Longer(r, t));
  }

  lemma TwinsOver(a: string, b: string)
    requires b == a + ":"
    ensures SymbolOver(a, b + "::") && SymbolOver(b, b + "::")
  {
    assert b + "::" == (a + "::") + ":";
  }

  lemma TwinsIntersect(qa: string, qb: string)
    requires Parse(qa).Some? && Parse(qb).Some?
    requires var a, b := Parse(qa).value, Parse(qb).value;
             a.project == b.project && a.file == b.file && a.symbol.Some? && b.symbol.Some?
             && b.symbol.value == a.symbol.value + ":"
    ensures Under(qa, qb + "::") && Under(qb, qb + "::")
  {
    FormatParse(qb);
    ParseAppend(Parse(qb).value, "::");
    TwinsOver(Parse(qa).value.symbol.value, Parse(qb).value.symbol.value);
  }

  /** Containment decides intersection of meanings, but for twins: the exact statement for two references. */
  lemma {:induction false} PairMeaning(a: string, b: string, project: string)
    requires NoHash(project)
    ensures Intersect(a, b, project) <==> PairOverlaps(a, b, project) || TwinRefs(a, b, project)
  {
    var qa, qb := QualifyRef(a, project), QualifyRef(b, project);
    QualifiedParses(a, project);
    QualifiedParses(b, project);
    var ra, rb := Parse(qa).value, Parse(qb).value;
    ContainsIsPartialOrder(ra, ra, ra);
    ContainsIsPartialOrder(rb, rb, rb);
    if Contains(ra, rb) {
      assert Under(qa, qb) && Under(qb, qb);
    } else if Contains(rb, ra) {
      assert Under(qa, qa) && Under(qb, qa);
    } else if Twins(ra, rb) {
      if rb.symbol.value == ra.symbol.value + ":" {
        TwinsIntersect(qa, qb);
      } else {
        TwinsIntersect(qb, qa);
      }
    } else if Intersect(a, b, project) {
      var r :| Under(qa, r) && Under(qb, r);
      ContainersFormChain(ra, rb, Parse(r).value);
    }
  }

  /** Twins share what lies under both, and the comparison never sees it. */
  lemma {:induction false} TwinsAreMissed(a: string, b: string, project: string)
    requires TwinRefs(a, b, project)
    ensures Intersect(a, b, project) && !PairOverlaps(a, b, project)
  {
    var qa, qb := QualifyRef(a, project), QualifyRef(b, project);
    var ra, rb := Parse(qa).value, Parse(qb).value;
    if rb.symbol.value == ra.symbol.value + ":" {
      TwinsIntersect(qa, qb);
      TwinsApart(ra.symbol.value, rb.symbol.value);
    } else {
      TwinsIntersect(qb, qa);
      TwinsApart(rb.symbol.value, ra.symbol.value);
    }
  }

  lemma TwinsApart(s: string, t: string)
    requires t == s + ":"
    ensures !SymbolOver(s, t) && !SymbolOver(t, s)
  {
    assert |s + "::"| > |t| && |t + "::"| > |s|;
  }

  /** The comparison of two references is right about their meanings exactly when they are not twins. */
  lemma {:induction false} PairIsRightUnlessTwins(a: string, b: string, project: string)
    requires NoHash(project)
    ensures (PairOverlaps(a, b, project) <==> Intersect(a, b, project)) <==> !TwinRefs(a, b, project)
  {
    PairMeaning(a, b, project);
    if TwinRefs(a, b, project) {
      TwinsAreMissed(a, b, project);
    }
  }

  /** The family has a member for every reference with a symbol, qualified or not: itself and one more colon. */
  lemma {:induction false} EverySymbolHasATwin(q: string, project: string)
    requires NoHash(project)
    requires !NoHash(q)
    ensures TwinRefs(q, q + ":", project)
  {
    PortionAppend(q, ":");
    var qualified := QualifyRef(q, project);
    assert QualifyRef(q + ":", project) == qualified + ":";
    QualifiedParses(q, project);
    FormatParse(qualified);
    var r := Parse(qualified).value;
    QualifyKeepsHash(q, project);
    FormatHasHash(r);
    ParseAppend(r, ":");
  }

  lemma PortionAppend(q: string, t: string)
    requires !NoHash(q)
    ensures CheckPortion(q + t) == CheckPortion(q)
  {
    HashFromFinds(q, 0);
    FindHashIs(q + t, FindHash(q));
  }

  lemma QualifyKeepsHash(q: string, project: string)
    requires !NoHash(q)
    ensures !NoHash(QualifyRef(q, project))
  {
    var k :| 0 <= k < |q| && q[k] == '#';
    assert (project + "::" + q)[|project| + 2 + k] == '#';
  }

  lemma FormatHasHash(r: Ref)
    requires Canonical(r) && !NoHash(Format(r))
    ensures r.symbol.Some?
  {
  }

  ghost predicate MeaningsOverlap(refsA: seq<string>, refsB: seq<string>, project: string) {
    exists i, j :: 0 <= i < |refsA| && 0 <= j < |refsB| && Intersect(refsA[i], refsB[j], project)
  }

  predicate HasTwins(refsA: seq<string>, refsB: seq<string>, project: string) {
    exists i, j :: 0 <= i < |refsA| && 0 <= j < |refsB| && TwinRefs(refsA[i], refsB[j], project)
  }

  /** Some pair has common references that do not come from twins. */
  ghost predicate MeetBesideTwins(refsA: seq<string>, refsB: seq<string>, project: string) {
    exists i, j :: 0 <= i < |refsA| && 0 <= j < |refsB|
                   && Intersect(refsA[i], refsB[j], project) && !TwinRefs(refsA[i], refsB[j], project)
  }

  /** Two lists are found to overlap exactly when a pair meets that is no pair of twins; so the answer is wrong about
      their meanings exactly when there are twins and nothing else meets. */
  lemma {:induction false} OverlapMeaning(refsA: seq<string>, refsB: seq<string>, project: string)
    requires NoHash(project)
    ensures MeaningsOverlap(refsA, refsB, project) <==>
            ListsOverlap(refsA, refsB, project) || HasTwins(refsA, refsB, project)
    ensures ListsOverlap(refsA, refsB, project) <==> MeetBesideTwins(refsA, refsB, project)
    ensures (ListsOverlap(refsA, refsB, project) <==> MeaningsOverlap(refsA, refsB, project)) <==>
            (HasTwins(refsA, refsB, project) ==> MeetBesideTwins(refsA, refsB, project))
  {
    forall i, j | 0 <= i < |refsA| && 0 <= j < |refsB|
      ensures Intersect(refsA[i], refsB[j], project) <==>
              PairOverlaps(refsA[i], refsB[j], project) || TwinRefs(refsA[i], refsB[j], project)
      ensures TwinRefs(refsA[i], refsB[j], project) ==> !PairOverlaps(refsA[i], refsB[j], project)
    {
      PairMeaning(refsA[i], refsB[j], project);
      PairIsRightUnlessTwins(refsA[i], refsB[j], project);
    }
  }

  // ----- well-formed symbol paths: a prefix of segments -----

  predicate IsSegment(s: string) {
    s != [] && ':' !in s
  }

  predicate IsPath(segments: seq<string>) {
    segments != [] && forall s :: s in segments ==> IsSegment(s)
  }

  function Join(segments: seq<string>): string
    requires segments != []
  {
    if |segments| == 1 then segments[0] else segments[0] + "::" + Join(segments[1..])
  }

  /** Over well-formed paths the string test is the prefix order of segment lists. */
  lemma {:induction false} SymbolOverIsSegmentPrefix(p: seq<string>, c: seq<string>)
    requires IsPath(p) && IsPath(c)
    ensures SymbolOver(Join(p), Join(c)) <==> p <= c
  {
    var sp, sc := Join(p), Join(c);
    FirstSegment(p, "");
    FirstSegment(c, "");
    FirstSegment(p, "::");
    if p[0] == c[0] {
      if |p| == 1 {
        if |c| == 1 {
          assert p == c;
        } else {
          assert p <= c;
          assert sp + "::" <= sc;
        }
      } else if |c| == 1 {
        assert |sp| > |sc|;
      } else {
        assert p == [p[0]] + p[1..] && c == [c[0]] + c[1..];
        SymbolOverIsSegmentPrefix(p[1..], c[1..]);
        var head := p[0] + "::";
        assert sp == head + Join(p[1..]) && sc == head + Join(c[1..]);
        CancelPrefix(head, Join(p[1..]), Join(c[1..]));
        CancelPrefix(head, Join(p[1..]) + "::", Join(c[1..]));
        assert head + (Join(p[1..]) + "::") == sp + "::";
      }
    } else {
      assert !(p <= c);
      if SymbolOver(sp, sc) {
        HeadsAgree(p, c);
      }
    }
  }

  lemma CancelPrefix(h: string, a: string, b: string)
    ensures (h + a == h + b <==> a == b) && (h + a <= h + b <==> a <= b)
  {
    assert (h + a)[|h|..] == a && (h + b)[|h|..] == b;
    if h + a <= h + b {
      assert h + b == (h + a) + (h + b)[|h + a|..];
      assert b == a + (h + b)[|h + a|..];
    }
  }

  /** The text of a path begins with its first segment, and then ends or goes on with a colon. */
  lemma FirstSegment(p: seq<string>, more: string)
    requires IsPath(p)
    ensures p[0] <= Join(p) + more
    ensures |Join(p)| > |p[0]| ==> Join(p)[|p[0]|] == ':'
    ensures p[0] in p && IsSegment(p[0])
  {
  }

  lemma HeadsAgree(p: seq<string>, c: seq<string>)
    requires IsPath(p) && IsPath(c) && Join(p) <= Join(c)
    requires Join(p) == Join(c) || Join(p) + "::" <= Join(c)
    ensures p[0] == c[0]
  {
    FirstSegment(p, "");
    FirstSegment(c, "");
    var a, b, s := p[0], c[0], Join(c);
    assert a <= s && b <= s;
    SegmentStops(a, b, s);
    SegmentStops(b, a, s);
    assert a == s[..|a|] && b == s[..|b|];
  }

  lemma SegmentStops(a: string, b: string, s: string)
    requires a <= s && b <= s && IsSegment(b)
    requires |a| < |s| ==> s[|a|] == ':'
    ensures |b| <= |a|
  {
  }

  ghost predicate WellFormed(r: Ref) {
    r.symbol.Some? ==> exists path :: IsPath(path) && r.symbol.value == Join(path)
  }

  lemma {:induction false} PathEndsInSegment(p: seq<string>)
    requires IsPath(p)
    ensures Join(p) != [] && Join(p)[|Join(p)|-1] != ':'
  {
    if |p| == 1 {
      assert p[0] in p && p[0][|p[0]|-1] in p[0];
    } else {
      PathEndsInSegment(p[1..]);
    }
  }

  lemma WellFormedHaveNoTwins(a: Ref, b: Ref)
    requires WellFormed(a) && WellFormed(b)
    ensures !Twins(a, b)
  {
    if a.symbol.Some? && b.symbol.Some? {
      var pa :| IsPath(pa) && a.symbol.value == Join(pa);
      var pb :| IsPath(pb) && b.symbol.value == Join(pb);
      PathEndsInSegment(pa);
      PathEndsInSegment(pb);
    }
  }

  /** For well-formed references the comparison is exactly intersection of meanings. */
  lemma {:induction false} WellFormedOverlapIsIntersection(refsA: seq<string>, refsB: seq<string>, project: string)
    requires NoHash(project)
    requires forall q :: q in refsA || q in refsB ==>
               Parse(QualifyRef(q, project)).Some? && WellFormed(Parse(QualifyRef(q, project)).value)
    ensures ListsOverlap(refsA, refsB, project) <==> MeaningsOverlap(refsA, refsB, project)
  {
    OverlapMeaning(refsA, refsB, project);
    forall i, j | 0 <= i < |refsA| && 0 <= j < |refsB| ensures !TwinRefs(refsA[i], refsB[j], project) {
      WellFormedHaveNoTwins(Parse(QualifyRef(refsA[i], project)).value, Parse(QualifyRef(refsB[j], project)).value);
    }
  }

  /** Qualifying with a project first, and parsing in the context of that project, agree exactly for project names
      that are clean: no '#', no "::", no colon at the end. */
  lemma {:induction false} QualifyAgreesWithContext(ref: string, project: string)
    requires Parse(ref).None?
    ensures Parse(QualifyRef(ref, project)) == ParseReference(ref, Some(project)) <==> Clean(project)
  {
    var inContext := ParseReference(ref, Some(project)).value;
    FileAndSymbolText(project, ref);
    assert project + "::" + ref == Format(inContext);
    if Clean(project) {
      ParseFormat(inContext);
    } else if Parse(project + "::" + ref) == Some(inContext) {
      FormatParse(project + "::" + ref);
    }
  }
}
