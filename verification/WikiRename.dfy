/** Renaming a wiki page and rewriting the links to it, against the resolver of links. */
module WikiRename {
  import Names
  import TextLines
  import opened Options

  /** A page as text and links; `inner` is what stands between the double brackets. */
  datatype Piece = Text(text: string) | Link(inner: string)

  type Document = seq<Piece>

  /** Pages by their path below wiki/, without the extension. */
  type Wiki = map<string, Document>

  datatype Renaming = Renaming(from: string, to: string)

  // ----- spelling of links and pages -----

  function Bar(s: string): nat {
    if s == [] || s[0] == '|' then 0 else 1 + Bar(s[1..])
  }

  lemma {:induction false} BarInRange(s: string)
    ensures Bar(s) <= |s| && (Bar(s) < |s| ==> s[Bar(s)] == '|') && '|' !in s[..Bar(s)]
  {
    if s != [] && s[0] != '|' {
      BarInRange(s[1..]);
      assert s[..Bar(s)] == [s[0]] + s[1..][..Bar(s[1..])];
    }
  }

  /** The part before the first bar, and the rest with its bar. */
  function Target(inner: string): string {
    BarInRange(inner);
    inner[..Bar(inner)]
  }

  function Display(inner: string): string {
    BarInRange(inner);
    inner[Bar(inner)..]
  }

  /** A target, and either no display text or one that is not empty. */
  predicate IsLink(inner: string) {
    Target(inner) != [] && |Display(inner)| != 1
  }

  /** A target without bars, and then nothing, or a bar and a text. */
  predicate Parts(inner: string, target: string, display: string) {
    && inner == target + display && target != [] && '|' !in target
    && (display == [] || (display[0] == '|' && display[1..] != []))
  }

  lemma PartsIff(inner: string, target: string, display: string)
    ensures Parts(inner, target, display) <==>
              IsLink(inner) && Target(inner) == target && Display(inner) == display
  {
    BarInRange(inner);
    assert inner == Target(inner) + Display(inner);
    if Parts(inner, target, display) { BarOfJoined(target, display); }
  }

  function Stem(page: string): string {
    TextLines.AfterLastSlash(page)
  }

  predicate EndsMd(s: string) {
    |s| >= 3 && s[|s|-3..] == ".md"
  }

  function Base(target: string): string {
    if EndsMd(target) then target[..|target|-3] else target
  }

  lemma StemIsSuffix(page: string)
    ensures |Stem(page)| <= |page| && Stem(page) == page[|page|-|Stem(page)|..]
    ensures '/' !in Stem(page) && ('/' !in page ==> Stem(page) == page)
  {
    TextLines.AfterLastSlashIsSuffix(page);
  }

  lemma StemKeeps(page: string)
    requires !EndsMd(page) && '|' !in page
    ensures !EndsMd(Stem(page)) && '|' !in Stem(page)
  {
    StemIsSuffix(page);
    EndsMdOfSuffix(page, |page| - |Stem(page)|);
  }

  lemma EndsMdOfSuffix(page: string, n: nat)
    requires n <= |page|
    ensures EndsMd(page[n..]) ==> EndsMd(page)
  {
    if |page[n..]| >= 3 {
      assert page[|page|-3..] == page[n..][|page[n..]|-3..];
    }
  }

  lemma TargetOfJoined(x: string, display: string)
    requires '|' !in x && (display == [] || display[0] == '|')
    ensures Target(x + display) == x && Display(x + display) == display
  {
    BarOfJoined(x, display);
  }

  lemma {:induction false} BarOfJoined(x: string, display: string)
    requires '|' !in x && (display == [] || display[0] == '|')
    ensures Bar(x + display) == |x|
  {
    if x == [] {
      assert x + display == display;
    } else {
      assert x[0] in x;
      assert (x + display)[1..] == x[1..] + display;
      BarOfJoined(x[1..], display);
    }
  }

  lemma DisplayStarts(inner: string)
    ensures Display(inner) == [] || Display(inner)[0] == '|'
    ensures '|' !in Target(inner) && inner == Target(inner) + Display(inner)
  {
    BarInRange(inner);
  }

  // ----- blanks -----

  lemma {:induction false} LStripKeeps(s: string, c: char)
    requires !TextLines.IsSpace(c)
    ensures multiset(TextLines.LStrip(s))[c] == multiset(s)[c]
  {
    if s != [] && TextLines.IsSpace(s[0]) {
      LStripKeeps(s[1..], c);
      assert s == [s[0]] + s[1..];
    }
  }

  lemma {:induction false} RStripKeeps(s: string, c: char)
    requires !TextLines.IsSpace(c)
    ensures multiset(TextLines.RStrip(s))[c] == multiset(s)[c]
  {
    if s != [] && TextLines.IsSpace(s[|s|-1]) {
      RStripKeeps(s[..|s|-1], c);
      assert s == s[..|s|-1] + [s[|s|-1]];
    }
  }

  lemma StripKeeps(s: string, c: char)
    requires !TextLines.IsSpace(c)
    ensures multiset(TextLines.Strip(s))[c] == multiset(s)[c]
  {
    LStripKeeps(s, c);
    RStripKeeps(TextLines.LStrip(s), c);
  }

  predicate Trimmed(s: string) {
    TextLines.Strip(s) == s
  }

  /** A target spelt with blanks around it or with the extension is not recognised by its base name. */
  lemma NotRecognised(target: string)
    requires !Trimmed(target) || EndsMd(target)
    ensures TextLines.Strip(target) != Base(target)
  {
    if EndsMd(target) {
      StripKeeps(target, '.');
      var n := |target| - 3;
      assert target == target[..n] + target[n..];
      assert multiset(target) == multiset(target[..n]) + multiset(".md");
    }
  }

  lemma SlashKept(s: string)
    ensures '/' in TextLines.Strip(s) <==> '/' in s
  {
    StripKeeps(s, '/');
    assert '/' in s <==> multiset(s)['/'] > 0;
    assert '/' in TextLines.Strip(s) <==> multiset(TextLines.Strip(s))['/'] > 0;
  }

  // ----- what a link means -----

  /** A page that the target may stand for: the one at that path, or any with that file name. */
  predicate MayMean(pages: set<string>, target: string, page: string) {
    page in pages && if '/' in target then page == Base(target) else Stem(page) == Base(target)
  }

  ghost predicate StemsDistinct(pages: set<string>) {
    forall p, q :: p in pages && q in pages && Stem(p) == Stem(q) ==> p == q
  }

  /** The page the target resolves to; of several with the same name, an arbitrary one. */
  ghost function Resolve(pages: set<string>, target: string): Option<string> {
    if page :| MayMean(pages, target, page) then Some(page) else None
  }

  lemma ResolvesTo(pages: set<string>, target: string, page: string)
    requires MayMean(pages, target, page) && StemsDistinct(pages)
    ensures Resolve(pages, target) == Some(page)
  {
    var other := Resolve(pages, target).value;
    assert MayMean(pages, target, other);
  }

  lemma ResolvesToNone(pages: set<string>, target: string)
    requires forall page :: page in pages ==> !MayMean(pages, target, page)
    ensures Resolve(pages, target) == None
  {
  }

  // ----- the rewrite of one link -----

  /** The rewriter recognises the target, as the path or as the file name of the renamed page. */
  predicate Recognised(r: Renaming, inner: string) {
    var t := TextLines.Strip(Target(inner));
    IsLink(inner) && (t == r.from || (t == Stem(r.from) && Stem(r.from) != Stem(r.to)))
  }

  function Rewritten(r: Renaming, inner: string): string {
    if !Recognised(r, inner) then inner
    else if TextLines.Strip(Target(inner)) == r.from then r.to + Display(inner)
    else Stem(r.to) + Display(inner)
  }

  function Renamed(r: Renaming, pages: set<string>): set<string> {
    pages - {r.from} + {r.to}
  }

  /** Paths that can be written in a link: no bar, and no extension of their own. */
  predicate Plain(page: string) {
    '|' !in page && !EndsMd(page)
  }

  ghost predicate Sensible(r: Renaming, pages: set<string>) {
    && r.from in pages && r.to !in pages && Plain(r.from) && Plain(r.to)
    && StemsDistinct(pages) && StemsDistinct(Renamed(r, pages))
  }

  lemma RewrittenMeansNew(r: Renaming, pages: set<string>, inner: string)
    requires Sensible(r, pages) && Recognised(r, inner)
    ensures Resolve(Renamed(r, pages), Target(Rewritten(r, inner))) == Some(r.to)
    ensures Display(Rewritten(r, inner)) == Display(inner)
  {
    DisplayStarts(inner);
    StemKeeps(r.to);
    StemIsSuffix(r.to);
    TargetOfJoined(r.to, Display(inner));
    TargetOfJoined(Stem(r.to), Display(inner));
    var target := Target(Rewritten(r, inner));
    assert target == r.to || target == Stem(r.to);
    assert MayMean(Renamed(r, pages), target, r.to);
    ResolvesTo(Renamed(r, pages), target, r.to);
  }

  /** A link to the renamed page that will be followed: spelt plainly, or by a file name that stays the same. */
  predicate Follows(r: Renaming, target: string) {
    (Trimmed(target) && !EndsMd(target)) || ('/' !in target && Stem(r.from) == Stem(r.to))
  }

  lemma PlainIsRecognised(r: Renaming, pages: set<string>, inner: string)
    requires Sensible(r, pages) && IsLink(inner) && MayMean(pages, Target(inner), r.from)
    requires Trimmed(Target(inner)) && !EndsMd(Target(inner))
    ensures Recognised(r, inner) || ('/' !in Target(inner) && Stem(r.from) == Stem(r.to))
  {
  }

  lemma OddIsNotRecognised(r: Renaming, pages: set<string>, inner: string)
    requires Sensible(r, pages) && IsLink(inner) && MayMean(pages, Target(inner), r.from)
    requires !Follows(r, Target(inner))
    ensures !Recognised(r, inner)
  {
    var target := Target(inner);
    NotRecognised(target);
    SlashKept(target);
    StemIsSuffix(r.from);
  }

  /** A link to the renamed page means the renamed page afterwards exactly when it is spelt plainly, or by a file name
      that stays the same; otherwise it is dead. */
  lemma LinkToRenamed(r: Renaming, pages: set<string>, inner: string)
    requires Sensible(r, pages) && IsLink(inner) && Resolve(pages, Target(inner)) == Some(r.from)
    ensures Resolve(Renamed(r, pages), Target(Rewritten(r, inner)))
         == if Follows(r, Target(inner)) then Some(r.to) else None
  {
    var target, pages' := Target(inner), Renamed(r, pages);
    assert MayMean(pages, target, r.from);
    if Recognised(r, inner) {
      RewrittenMeansNew(r, pages, inner);
      if !Follows(r, target) { OddIsNotRecognised(r, pages, inner); }
    } else if Follows(r, target) {
      if Trimmed(target) && !EndsMd(target) { PlainIsRecognised(r, pages, inner); }
      assert MayMean(pages', target, r.to);
      ResolvesTo(pages', target, r.to);
    } else {
      forall page | page in pages' ensures !MayMean(pages', target, page) {
      }
      ResolvesToNone(pages', target);
    }
  }

  /** The failing family has a member for every renaming: the page's own path with the extension. */
  lemma {:induction false} LinkWithExtensionDies(r: Renaming, pages: set<string>)
    requires Sensible(r, pages) && ('/' in r.from || Stem(r.from) != Stem(r.to))
    ensures var inner := r.from + ".md";
            && IsLink(inner) && Resolve(pages, Target(inner)) == Some(r.from)
            && Resolve(Renamed(r, pages), Target(Rewritten(r, inner))) == None
  {
    var inner := r.from + ".md";
    assert inner + [] == inner;
    TargetOfJoined(inner, []);
    assert inner[|inner|-3..] == ".md" && inner[..|inner|-3] == r.from;
    assert Base(inner) == r.from;
    StemIsSuffix(r.from);
    assert '/' in inner <==> '/' in r.from;
    assert MayMean(pages, inner, r.from);
    ResolvesTo(pages, inner, r.from);
    LinkToRenamed(r, pages, inner);
  }

  lemma OneStem(pages: set<string>, page: string)
    requires pages == {page}
    ensures StemsDistinct(pages)
  {
  }

  lemma OnePageIsSensible(r: Renaming)
    requires r.from != r.to && Plain(r.from) && Plain(r.to)
    ensures Sensible(r, {r.from}) && Renamed(r, {r.from}) == {r.to}
  {
    OneStem({r.from}, r.from);
    var renamed := Renamed(r, {r.from});
    assert renamed == {r.to};
    OneStem(renamed, r.to);
  }

  /** For instance in a wiki of one page that links to itself. */
  lemma {:induction false} SelfLinkDies(r: Renaming)
    requires r.from != r.to && '/' !in r.from && '/' !in r.to && Plain(r.from) && Plain(r.to)
    ensures var inner := r.from + ".md";
            && Sensible(r, {r.from}) && Resolve({r.from}, Target(inner)) == Some(r.from)
            && Resolve({r.to}, Target(Rewritten(r, inner))) == None
  {
    OnePageIsSensible(r);
    StemIsSuffix(r.from);
    StemIsSuffix(r.to);
    LinkWithExtensionDies(r, {r.from});
  }

  /** A link to another page keeps its meaning, exactly when it is not taken for a link to the renamed one; blanks
      around the target are the only way to be. */
  lemma LinkToOther(r: Renaming, pages: set<string>, inner: string, page: string)
    requires Sensible(r, pages) && IsLink(inner) && Resolve(pages, Target(inner)) == Some(page) && page != r.from
    ensures Resolve(Renamed(r, pages), Target(Rewritten(r, inner))) == Some(if Recognised(r, inner) then r.to else page)
    ensures Recognised(r, inner) ==> !Trimmed(Target(inner))
  {
    var target, pages' := Target(inner), Renamed(r, pages);
    assert MayMean(pages, target, page);
    if Recognised(r, inner) {
      RewrittenMeansNew(r, pages, inner);
      StemIsSuffix(r.from);
      StemKeeps(r.from);
    } else {
      assert MayMean(pages', target, page);
      ResolvesTo(pages', target, page);
    }
  }

  /** A dead link stays dead, or means the renamed page. */
  lemma DeadLink(r: Renaming, pages: set<string>, inner: string)
    requires Sensible(r, pages) && IsLink(inner) && Resolve(pages, Target(inner)) == None
    ensures var after := Resolve(Renamed(r, pages), Target(Rewritten(r, inner))); after == None || after == Some(r.to)
  {
    var target, pages' := Target(inner), Renamed(r, pages);
    if Recognised(r, inner) {
      RewrittenMeansNew(r, pages, inner);
    } else {
      forall page | page in pages' && page != r.to ensures !MayMean(pages', target, page) {
        assert !MayMean(pages, target, page);
      }
    }
  }

  // ----- the whole wiki -----

  function RewrittenPiece(r: Renaming, piece: Piece): Piece {
    if piece.Text? then piece else Link(Rewritten(r, piece.inner))
  }

  function RewrittenDoc(r: Renaming, doc: Document): Document {
    if doc == [] then [] else RewrittenDoc(r, doc[..|doc|-1]) + [RewrittenPiece(r, doc[|doc|-1])]
  }

  lemma {:induction false} RewrittenAt(r: Renaming, doc: Document)
    ensures |RewrittenDoc(r, doc)| == |doc|
    ensures forall i :: 0 <= i < |doc| ==> RewrittenDoc(r, doc)[i] == RewrittenPiece(r, doc[i])
  {
    if doc != [] { RewrittenAt(r, doc[..|doc|-1]); }
  }

  /** The name that a page has after the renaming, and the one it had before. */
  function NewName(r: Renaming, page: string): string {
    if page == r.from then r.to else page
  }

  function OldName(r: Renaming, page: string): string {
    if page == r.to then r.from else page
  }

  function RenamedWiki(r: Renaming, wiki: Wiki): Wiki
    requires r.from in wiki
  {
    map page | page in wiki.Keys - {r.from} + {r.to} :: RewrittenDoc(r, wiki[OldName(r, page)])
  }

  /** Piece `i` of a page is a link. */
  predicate LinkAt(wiki: Wiki, page: string, i: int) {
    page in wiki && 0 <= i < |wiki[page]| && wiki[page][i].Link? && IsLink(wiki[page][i].inner)
  }

  ghost function Meaning(wiki: Wiki, page: string, i: int): Option<string>
    requires LinkAt(wiki, page, i)
  {
    Resolve(wiki.Keys, Target(wiki[page][i].inner))
  }

  lemma LinkAfter(r: Renaming, wiki: Wiki, page: string, i: int)
    requires Sensible(r, wiki.Keys) && page in wiki && 0 <= i < |wiki[page]| && wiki[page][i].Link?
    ensures var wiki' := RenamedWiki(r, wiki);
            && wiki'.Keys == Renamed(r, wiki.Keys) && NewName(r, page) in wiki'
            && |wiki'[NewName(r, page)]| == |wiki[page]|
            && wiki'[NewName(r, page)][i] == Link(Rewritten(r, wiki[page][i].inner))
  {
    RewrittenAt(r, wiki[page]);
  }

  /** What the link at `(page, i)` means is carried along by the renaming. */
  ghost predicate Carried(r: Renaming, wiki: Wiki, page: string, i: int)
    requires Sensible(r, wiki.Keys) && LinkAt(wiki, page, i)
  {
    LinkAfter(r, wiki, page, i);
    Meaning(wiki, page, i).Some? ==>
      Resolve(Renamed(r, wiki.Keys), Target(RenamedWiki(r, wiki)[NewName(r, page)][i].inner))
      == Some(NewName(r, Meaning(wiki, page, i).value))
  }

  /** Links to the renamed page are spelt so that they follow it, and no other link is taken for one. */
  ghost predicate WellSpelt(r: Renaming, wiki: Wiki, page: string, i: int)
    requires LinkAt(wiki, page, i)
  {
    var inner := wiki[page][i].inner;
    && (Meaning(wiki, page, i) == Some(r.from) ==> Follows(r, Target(inner)))
    && (Meaning(wiki, page, i).Some? && Recognised(r, inner) ==> Meaning(wiki, page, i) == Some(r.from))
  }

  lemma {:induction false} CarriedIffWellSpelt(r: Renaming, wiki: Wiki, page: string, i: int)
    requires Sensible(r, wiki.Keys) && LinkAt(wiki, page, i)
    ensures Carried(r, wiki, page, i) <==> WellSpelt(r, wiki, page, i)
  {
    var inner := wiki[page][i].inner;
    LinkAfter(r, wiki, page, i);
    match Meaning(wiki, page, i)
    case None =>
    case Some(q) => if q == r.from { LinkToRenamed(r, wiki.Keys, inner); } else { LinkToOther(r, wiki.Keys, inner, q); }
  }

  /** Renaming a page keeps the meaning of every link of the wiki, in the renamed page and in all others, exactly when
      every link is well spelt. */
  lemma RenameKeepsMeaning(r: Renaming, wiki: Wiki)
    requires Sensible(r, wiki.Keys)
    ensures (forall page, i :: LinkAt(wiki, page, i) ==> Carried(r, wiki, page, i))
            <==> (forall page, i :: LinkAt(wiki, page, i) ==> WellSpelt(r, wiki, page, i))
  {
    forall page, i | LinkAt(wiki, page, i) ensures Carried(r, wiki, page, i) <==> WellSpelt(r, wiki, page, i) {
      CarriedIffWellSpelt(r, wiki, page, i);
    }
  }

  /** Trimmed targets without the extension are well spelt. */
  lemma PlainTargetsAreWellSpelt(r: Renaming, wiki: Wiki, page: string, i: int)
    requires Sensible(r, wiki.Keys) && LinkAt(wiki, page, i)
    requires Trimmed(Target(wiki[page][i].inner)) && !EndsMd(Target(wiki[page][i].inner))
    ensures WellSpelt(r, wiki, page, i)
  {
    var inner := wiki[page][i].inner;
    if Meaning(wiki, page, i).Some? && Meaning(wiki, page, i) != Some(r.from) {
      LinkToOther(r, wiki.Keys, inner, Meaning(wiki, page, i).value);
    }
  }

  // ----- what a renaming changes, and what it leaves -----

  /** The link names the renamed page by its path, or by its file name when that changes; blanks around it are no
      matter. */
  predicate ByPath(r: Renaming, p: Piece) {
    p.Link? && IsLink(p.inner) && TextLines.Strip(Target(p.inner)) == r.from
  }

  predicate ByName(r: Renaming, p: Piece) {
    p.Link? && IsLink(p.inner) && TextLines.Strip(Target(p.inner)) == Stem(r.from) && Stem(r.from) != Stem(r.to)
  }

  /** All text and every other link stay; in the links that name the page the target alone is replaced. */
  predicate Follow(r: Renaming, before: Piece, after: Piece) {
    if ByPath(r, before) then after == Link(r.to + Display(before.inner))
    else if ByName(r, before) then after == Link(Stem(r.to) + Display(before.inner))
    else after == before
  }

  /** The wiki after a renaming: the page is at its new path, all others are where they were, and piece by piece they
      are the old ones but for the links that name the page. */
  lemma {:induction false} RenamingChanges(r: Renaming, wiki: Wiki, page: string)
    requires r.from in wiki && r.to !in wiki && page in wiki
    ensures var wiki', page' := RenamedWiki(r, wiki), if page == r.from then r.to else page;
            && wiki'.Keys == wiki.Keys - {r.from} + {r.to}
            && Followed(r, wiki, wiki', page, page')
  {
    RewrittenAt(r, wiki[page]);
  }

  /** `page'` of the new wiki is `page` of the old one, as far as the renaming leaves it. */
  predicate Followed(r: Renaming, wiki: Wiki, wiki': Wiki, page: string, page': string)
    requires page in wiki
  {
    && page' in wiki' && |wiki'[page']| == |wiki[page]|
    && forall i :: 0 <= i < |wiki[page]| ==> Follow(r, wiki[page][i], wiki'[page'][i])
  }

  /** A page counts as changed exactly when it has a link that names the renamed page and reads differently afterwards.
      */
  lemma {:induction false} TouchedIff(r: Renaming, wiki: Wiki, page: string)
    requires r.from in wiki && r.to !in wiki && page in wiki
    ensures (if page == r.from then r.to else page) in Touched(r, wiki) <==>
              exists i :: 0 <= i < |wiki[page]| && Retargets(r, wiki[page][i])
  {
    var page' := if page == r.from then r.to else page;
    assert OldName(r, page') == page;
    assert page' in Touched(r, wiki) <==> RewrittenDoc(r, wiki[page]) != wiki[page];
    RewrittenFollows(r, wiki[page]);
  }

  lemma RewrittenFollows(r: Renaming, doc: Document)
    ensures |RewrittenDoc(r, doc)| == |doc|
    ensures forall i :: 0 <= i < |doc| ==> Follow(r, doc[i], RewrittenDoc(r, doc)[i])
    ensures RewrittenDoc(r, doc) != doc <==> exists i :: 0 <= i < |doc| && Retargets(r, doc[i])
  {
    var doc' := RewrittenDoc(r, doc);
    RewrittenAt(r, doc);
    if forall i :: 0 <= i < |doc| ==> doc'[i] == doc[i] {
      assert doc' == doc;
    }
    forall i | 0 <= i < |doc| ensures Retargets(r, doc[i]) <==> doc'[i] != doc[i] {
      assert doc'[i] == RewrittenPiece(r, doc[i]);
    }
  }

  predicate Retargets(r: Renaming, p: Piece) {
    (ByPath(r, p) && r.to + Display(p.inner) != p.inner)
    || (!ByPath(r, p) && ByName(r, p) && Stem(r.to) + Display(p.inner) != p.inner)
  }

  // ----- dead links, as the linter sees them -----

  /** The linter resolves all that stands between the brackets, display text included. */
  ghost predicate LintDead(wiki: Wiki, page: string, i: int)
    requires page in wiki && 0 <= i < |wiki[page]| && wiki[page][i].Link?
  {
    Resolve(wiki.Keys, wiki[page][i].inner) == None
  }

  predicate Bracketed(wiki: Wiki, page: string, i: int) {
    page in wiki && 0 <= i < |wiki[page]| && wiki[page][i].Link? && wiki[page][i].inner != []
  }

  ghost predicate Dies(r: Renaming, wiki: Wiki, page: string, i: int)
    requires Sensible(r, wiki.Keys) && Bracketed(wiki, page, i)
  {
    LinkAfter(r, wiki, page, i);
    !LintDead(wiki, page, i) && LintDead(RenamedWiki(r, wiki), NewName(r, page), i)
  }

  lemma BarIsLintDead(wiki: Wiki, page: string, i: int)
    requires Bracketed(wiki, page, i) && '|' in wiki[page][i].inner && forall p :: p in wiki ==> '|' !in p
    ensures LintDead(wiki, page, i)
  {
    var inner := wiki[page][i].inner;
    var k :| 0 <= k < |inner| && inner[k] == '|';
    if EndsMd(inner) {
      var end := inner[|inner|-3..];
      assert end[0] == '.' && end[1] == 'm' && end[2] == 'd';
    }
    assert Base(inner)[k] == '|';
    forall p | p in wiki ensures !MayMean(wiki.Keys, inner, p) {
      StemIsSuffix(p);
      assert '|' !in Stem(p);
    }
  }

  lemma NoBarIsTarget(inner: string)
    requires '|' !in inner
    ensures Target(inner) == inner && Display(inner) == []
  {
    TargetOfJoined(inner, []);
    assert inner + [] == inner;
  }

  /** The linter reports a link exactly when it has display text or its target is dead; so it is wrong exactly about
      the links with display text that do mean a page. */
  lemma {:induction false} LintDeadIff(wiki: Wiki, page: string, i: int)
    requires Bracketed(wiki, page, i) && forall p :: p in wiki ==> '|' !in p
    ensures var inner := wiki[page][i].inner; var target := Resolve(wiki.Keys, Target(inner));
            && (LintDead(wiki, page, i) <==> '|' in inner || target == None)
            && ((LintDead(wiki, page, i) <==> target == None) <==> !('|' in inner && target.Some?))
  {
    var inner := wiki[page][i].inner;
    if '|' in inner {
      BarIsLintDead(wiki, page, i);
    } else {
      NoBarIsTarget(inner);
    }
  }

  /** For instance in a wiki of one page that links to itself with display text. */
  lemma {:induction false} DisplayTextIsReported(a: string, display: string)
    requires a != "" && '/' !in a && Plain(a)
    ensures var wiki: Wiki := map[a := [Link(a + ("|" + display))]];
            && Bracketed(wiki, a, 0) && LintDead(wiki, a, 0)
            && Resolve(wiki.Keys, Target(wiki[a][0].inner)) == Some(a)
  {
    var inner := a + ("|" + display);
    var wiki: Wiki := map[a := [Link(inner)]];
    assert wiki[a][0].inner == inner && inner[|a|] == '|';
    LintDeadIff(wiki, a, 0);
    TargetOfJoined(a, "|" + display);
    StemIsSuffix(a);
    assert MayMean(wiki.Keys, a, a);
    ResolvesTo(wiki.Keys, a, a);
  }

  /** The linter reports a link after the renaming that it did not report before exactly when the link means the
      renamed page in a spelling that does not follow it. */
  lemma {:induction false} DiesIff(r: Renaming, wiki: Wiki, page: string, i: int)
    requires Sensible(r, wiki.Keys) && Bracketed(wiki, page, i) && forall p :: p in wiki ==> '|' !in p
    ensures Dies(r, wiki, page, i) <==>
              Resolve(wiki.Keys, wiki[page][i].inner) == Some(r.from) && !Follows(r, wiki[page][i].inner)
  {
    var inner := wiki[page][i].inner;
    LinkAfter(r, wiki, page, i);
    if '|' in inner {
      BarIsLintDead(wiki, page, i);
    } else {
      NoBarIsTarget(inner);
      RewrittenHasNoBar(r, wiki.Keys, inner);
      match Resolve(wiki.Keys, inner)
      case None =>
      case Some(q) =>
        if q == r.from { LinkToRenamed(r, wiki.Keys, inner); } else { LinkToOther(r, wiki.Keys, inner, q); }
    }
  }

  lemma RewrittenHasNoBar(r: Renaming, pages: set<string>, inner: string)
    requires Sensible(r, pages) && '|' !in inner
    ensures Target(Rewritten(r, inner)) == Rewritten(r, inner)
  {
    NoBarIsTarget(inner);
    StemKeeps(r.to);
    if Recognised(r, inner) {
      assert r.to + [] == r.to && Stem(r.to) + [] == Stem(r.to);
      NoBarIsTarget(r.to);
      NoBarIsTarget(Stem(r.to));
    }
  }

  // ----- the operations -----

  /** `_resolve_wikilink`. */
  method ResolveWikilink(pages: set<string>, target: string) returns (page: Option<string>)
    ensures page.Some? ==> MayMean(pages, target, page.value)
    ensures page.None? <==> Resolve(pages, target) == None
  {
    var base := Base(target);
    if '/' in target {
      page := if base in pages then Some(base) else None;
      assert MayMean(pages, target, base) <==> base in pages;
    } else {
      var todo := pages;
      page := None;
      while todo != {}
        invariant todo <= pages && forall p :: p in pages - todo ==> !MayMean(pages, target, p)
        decreases todo
      {
        var p :| p in todo;
        if Stem(p) == base {
          assert MayMean(pages, target, p);
          return Some(p);
        }
        todo := todo - {p};
      }
    }
  }

  datatype Issue = DeadWikilink(page: string, inner: string)

  ghost predicate ReportedAt(wiki: Wiki, x: Issue, i: int) {
    Bracketed(wiki, x.page, i) && wiki[x.page][i].inner == x.inner && LintDead(wiki, x.page, i)
  }

  ghost predicate Reported(wiki: Wiki, x: Issue) {
    exists i :: ReportedAt(wiki, x, i)
  }

  /** The dead links among the first `n` pieces of a page, one for each occurrence. */
  ghost function DeadLinks(wiki: Wiki, page: string, n: nat): seq<Issue>
    requires page in wiki && n <= |wiki[page]|
  {
    if n == 0 then []
    else DeadLinks(wiki, page, n - 1)
         + if Bracketed(wiki, page, n - 1) && LintDead(wiki, page, n - 1)
           then [DeadWikilink(page, wiki[page][n-1].inner)]
           else []
  }

  function OfPage(issues: seq<Issue>, page: string): seq<Issue> {
    if issues == [] then [] else
      OfPage(issues[..|issues|-1], page) + if issues[|issues|-1].page == page then [issues[|issues|-1]] else []
  }

  lemma {:induction false} OfPageConcat(a: seq<Issue>, b: seq<Issue>, page: string)
    ensures OfPage(a + b, page) == OfPage(a, page) + OfPage(b, page)
  {
    if b == [] {
      assert a + b == a;
    } else {
      assert (a + b)[..|a + b|-1] == a + b[..|b|-1];
      OfPageConcat(a, b[..|b|-1], page);
    }
  }

  predicate AllOn(issues: seq<Issue>, page: string) {
    forall i :: 0 <= i < |issues| ==> issues[i].page == page
  }

  lemma {:induction false} OfPageOfOnePage(issues: seq<Issue>, from: string, page: string)
    requires AllOn(issues, from)
    ensures OfPage(issues, page) == if page == from then issues else []
  {
    if issues != [] {
      var front, last := issues[..|issues|-1], issues[|issues|-1];
      assert AllOn(front, from) && last.page == from;
      OfPageOfOnePage(front, from, page);
      assert issues == front + [last];
    }
  }

  ghost predicate ListedForPage(wiki: Wiki, issues: seq<Issue>, todo: set<string>, page: string)
    requires page in wiki
  {
    OfPage(issues, page) == if page in todo then [] else DeadLinks(wiki, page, |wiki[page]|)
  }

  lemma ListedStep(wiki: Wiki, issues: seq<Issue>, found: seq<Issue>, todo: set<string>, from: string, page: string)
    requires page in wiki && from in todo && from in wiki && ListedForPage(wiki, issues, todo, page)
    requires found == DeadLinks(wiki, from, |wiki[from]|) && AllOn(found, from)
    ensures ListedForPage(wiki, issues + found, todo - {from}, page)
  {
    OfPageConcat(issues, found, page);
    OfPageOfOnePage(found, from, page);
    if page == from {
      assert OfPage(issues, page) == [];
      assert [] + found == found;
    } else {
      assert OfPage(issues, page) + [] == OfPage(issues, page);
    }
  }

  /** The dead-link part of `lint_wiki`: nothing but links that do not resolve, page by page, one issue for every
      occurrence, in the order of the text. */
  method LintDeadLinks(wiki: Wiki) returns (issues: seq<Issue>)
    ensures forall x :: x in issues <==> Reported(wiki, x)
    ensures forall page :: page in wiki ==> OfPage(issues, page) == DeadLinks(wiki, page, |wiki[page]|)
  {
    issues := [];
    var todo := wiki.Keys;
    while todo != {}
      invariant todo <= wiki.Keys
      invariant forall x :: x in issues <==> x.page !in todo && Reported(wiki, x)
      invariant forall page :: page in wiki ==> ListedForPage(wiki, issues, todo, page)
      decreases todo
    {
      var page :| page in todo;
      var found := LintPage(wiki, page);
      assert AllOn(found, page) by {
        forall i | 0 <= i < |found| ensures found[i].page == page {
          assert found[i] in found;
        }
      }
      forall p | p in wiki ensures ListedForPage(wiki, issues + found, todo - {page}, p) {
        ListedStep(wiki, issues, found, todo, page, p);
      }
      issues := issues + found;
      todo := todo - {page};
    }
    forall page | page in wiki ensures OfPage(issues, page) == DeadLinks(wiki, page, |wiki[page]|) {
      assert ListedForPage(wiki, issues, todo, page);
    }
  }

  method LintPage(wiki: Wiki, page: string) returns (issues: seq<Issue>)
    requires page in wiki
    ensures forall x :: x in issues <==> x.page == page && Reported(wiki, x)
    ensures issues == DeadLinks(wiki, page, |wiki[page]|)
  {
    issues := [];
    var doc := wiki[page];
    for k := 0 to |doc|
      invariant forall x :: x in issues <==> x.page == page && ReportedBefore(wiki, x, k)
      invariant issues == DeadLinks(wiki, page, k)
    {
      ghost var before := issues;
      if doc[k].Link? && doc[k].inner != [] {
        var resolved := ResolveWikilink(wiki.Keys, doc[k].inner);
        if resolved.None? {
          issues := issues + [DeadWikilink(page, doc[k].inner)];
        }
      }
      forall x: Issue ensures x in issues <==> x.page == page && ReportedBefore(wiki, x, k + 1) {
        ReportedStep(wiki, x, k);
      }
    }
    forall x: Issue | x.page == page && Reported(wiki, x) ensures ReportedBefore(wiki, x, |doc|) {
      var i :| ReportedAt(wiki, x, i);
      assert i < |doc|;
    }
  }

  ghost predicate ReportedBefore(wiki: Wiki, x: Issue, n: int) {
    exists i :: i < n && ReportedAt(wiki, x, i)
  }

  lemma ReportedStep(wiki: Wiki, x: Issue, n: int)
    ensures ReportedBefore(wiki, x, n + 1) <==> ReportedBefore(wiki, x, n) || ReportedAt(wiki, x, n)
  {
    if ReportedBefore(wiki, x, n) {
      var i :| i < n && ReportedAt(wiki, x, i);
      assert i < n + 1;
    }
  }

  datatype Outcome = Done(filesUpdated: nat) | NoWiki | NotFound | AlreadyExists

  class EntityRepo {
    var wiki: Option<Wiki>

    constructor (wiki: Option<Wiki>)
      ensures this.wiki == wiki
    {
      this.wiki := wiki;
    }

    /** `_rewrite_wikilinks` on one page. */
    method RewriteWikilinks(page: string, r: Renaming) returns (modified: bool)
      requires wiki.Some? && page in wiki.value
      modifies this
      ensures wiki == Some(old(wiki).value[page := RewrittenDoc(r, old(wiki).value[page])])
      ensures modified <==> RewrittenDoc(r, old(wiki).value[page]) != old(wiki).value[page]
      ensures modified <==> exists i :: 0 <= i < |old(wiki).value[page]| && Retargets(r, old(wiki).value[page][i])
      ensures Followed(r, old(wiki).value, wiki.value, page, page)
    {
      RewrittenFollows(r, wiki.value[page]);
      var doc := wiki.value[page];
      var text: Document := [];
      for i := 0 to |doc|
        invariant text == RewrittenDoc(r, doc[..i]) && wiki == old(wiki)
      {
        assert doc[..i+1][..i] == doc[..i];
        text := text + [RewrittenPiece(r, doc[i])];
      }
      assert doc[..|doc|] == doc;
      modified := text != doc;
      if modified {
        wiki := Some(wiki.value[page := text]);
      }
      assert wiki.value == old(wiki).value[page := text];
    }

    /** `wiki_rename`. */
    method WikiRename(from: string, to: string) returns (outcome: Outcome)
      modifies this
      ensures outcome.NoWiki? <==> old(wiki).None?
      ensures outcome.NotFound? <==> old(wiki).Some? && from !in old(wiki).value
      ensures outcome.AlreadyExists? <==> old(wiki).Some? && from in old(wiki).value && to in old(wiki).value
      ensures if outcome.Done? then wiki == Some(RenamedWiki(Renaming(from, to), old(wiki).value))
              else wiki == old(wiki)
      ensures outcome.Done? ==> outcome.filesUpdated == |Touched(Renaming(from, to), old(wiki).value)|
      ensures outcome.Done? ==>
        wiki.value.Keys == old(wiki).value.Keys - {from} + {to}
        && forall page :: page in old(wiki).value ==>
          Followed(Renaming(from, to), old(wiki).value, wiki.value, page, if page == from then to else page)
    {
      if wiki.None? {
        return NoWiki;
      }
      if from !in wiki.value {
        return NotFound;
      }
      if to in wiki.value {
        return AlreadyExists;
      }
      ghost var w0 := wiki.value;
      var r := Renaming(from, to);
      wiki := Some((wiki.value - {from})[to := wiki.value[from]]);
      var filesUpdated := RewriteAll(r, w0);
      outcome := Done(filesUpdated);
      forall page | page in w0 ensures Followed(r, w0, wiki.value, page, if page == from then to else page) {
        RenamingChanges(r, w0, page);
      }
    }

    method RewriteAll(r: Renaming, ghost w0: Wiki) returns (filesUpdated: nat)
      requires r.from in w0 && wiki.Some? && PartlyRewritten(r, w0, wiki.value, [])
      modifies this
      ensures wiki == Some(RenamedWiki(r, w0)) && filesUpdated == |Touched(r, w0)|
    {
      var pages := ListPages(wiki.value.Keys);
      filesUpdated := 0;
      for i := 0 to |pages|
        invariant wiki.Some? && PartlyRewritten(r, w0, wiki.value, pages[..i])
        invariant filesUpdated == |TouchedOf(r, w0, pages[..i])|
      {
        ghost var w := wiki.value;
        NotBefore(pages, i);
        PartlyStep(r, w0, w, pages, i);
        var modified := RewriteWikilinks(pages[i], r);
        assert wiki == Some(w[pages[i] := RewrittenDoc(r, w[pages[i]])]);
        if modified {
          filesUpdated := filesUpdated + 1;
        }
      }
      AllRewritten(r, w0, wiki.value, pages);
    }
  }

  method ListPages(pages: set<string>) returns (q: seq<string>)
    ensures Names.NoDuplicates(q) && forall p :: p in q <==> p in pages
  {
    q := Names.SortSet(pages);
  }

  lemma NotBefore(pages: seq<string>, i: nat)
    requires Names.NoDuplicates(pages) && i < |pages|
    ensures pages[i] in pages && pages[i] !in pages[..i]
  {
  }

  lemma AllRewritten(r: Renaming, wiki: Wiki, wiki': Wiki, pages: seq<string>)
    requires r.from in wiki && PartlyRewritten(r, wiki, wiki', pages[..|pages|])
    requires forall p :: p in pages <==> p in wiki.Keys - {r.from} + {r.to}
    ensures wiki' == RenamedWiki(r, wiki) && TouchedOf(r, wiki, pages[..|pages|]) == Touched(r, wiki)
  {
    assert pages[..|pages|] == pages;
  }

  /** The pages, by their new names, whose text the renaming changes. */
  function Touched(r: Renaming, wiki: Wiki): set<string>
    requires r.from in wiki
  {
    set p | p in wiki.Keys - {r.from} + {r.to} && RewrittenDoc(r, wiki[OldName(r, p)]) != wiki[OldName(r, p)]
  }

  /** The page has moved, and the pages in `done` are rewritten. */
  ghost predicate PartlyRewritten(r: Renaming, wiki: Wiki, wiki': Wiki, done: seq<string>)
    requires r.from in wiki
  {
    && wiki'.Keys == wiki.Keys - {r.from} + {r.to}
    && forall p :: p in wiki' ==> wiki'[p] == PartlyRewrittenPage(r, wiki, done, p)
  }

  function PartlyRewrittenPage(r: Renaming, wiki: Wiki, done: seq<string>, p: string): Document
    requires OldName(r, p) in wiki
  {
    if p in done then RewrittenDoc(r, wiki[OldName(r, p)]) else wiki[OldName(r, p)]
  }

  lemma PartlyStep(r: Renaming, wiki: Wiki, wiki': Wiki, pages: seq<string>, i: nat)
    requires r.from in wiki && i < |pages| && pages[i] in wiki.Keys - {r.from} + {r.to} && pages[i] !in pages[..i]
    requires PartlyRewritten(r, wiki, wiki', pages[..i])
    ensures PartlyRewritten(r, wiki, wiki'[pages[i] := RewrittenDoc(r, wiki'[pages[i]])], pages[..i+1])
    ensures |TouchedOf(r, wiki, pages[..i+1])| == |TouchedOf(r, wiki, pages[..i])|
              + if RewrittenDoc(r, wiki'[pages[i]]) != wiki'[pages[i]] then 1 else 0
  {
    assert pages[..i+1] == pages[..i] + [pages[i]];
    TouchedSnoc(r, wiki, pages, i);
  }

  function TouchedOf(r: Renaming, wiki: Wiki, pages: seq<string>): set<string> {
    set p | p in pages && OldName(r, p) in wiki && RewrittenDoc(r, wiki[OldName(r, p)]) != wiki[OldName(r, p)]
  }

  lemma TouchedSnoc(r: Renaming, wiki: Wiki, pages: seq<string>, i: nat)
    requires i < |pages| && OldName(r, pages[i]) in wiki && pages[i] !in pages[..i]
    ensures |TouchedOf(r, wiki, pages[..i+1])| == |TouchedOf(r, wiki, pages[..i])|
              + if RewrittenDoc(r, wiki[OldName(r, pages[i])]) != wiki[OldName(r, pages[i])] then 1 else 0
  {
    var p := pages[i];
    assert pages[..i+1] == pages[..i] + [p];
    if RewrittenDoc(r, wiki[OldName(r, p)]) != wiki[OldName(r, p)] {
      assert TouchedOf(r, wiki, pages[..i+1]) == TouchedOf(r, wiki, pages[..i]) + {p};
    } else {
      assert TouchedOf(r, wiki, pages[..i+1]) == TouchedOf(r, wiki, pages[..i]);
    }
  }
}
