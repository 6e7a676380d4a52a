/** The friction log and its ids. */
module FrictionLog {
  import opened TextLines
  import opened FrictionHeadings
  import opened Options

  datatype Entry = Entry(heading: Heading, content: string)

  // ----- the parser -----

  /** The scan after some lines: finished entries, the heading of the open one, and its content lines. */
  datatype Scan = Scan(done: seq<Entry>, pending: Option<Heading>, content: seq<string>)

  const START := Scan([], None, [])

  function Close(s: Scan): seq<Entry> {
    match s.pending
    case None => s.done
    case Some(h) => s.done + [Entry(h, Strip(Join(s.content)))]
  }

  function Feed(s: Scan, line: string): Scan {
    match MatchHeading(line)
    case Some(h) => Scan(Close(s), Some(h), [])
    case None => if s.pending.Some? then s.(content := s.content + [line]) else s
  }

  function FeedAll(s: Scan, lines: seq<string>): Scan {
    if lines == [] then s else Feed(FeedAll(s, Front(lines)), Last(lines))
  }

  /** The entries of a log body. */
  function Entries(body: string): seq<Entry> {
    Close(FeedAll(START, Split(body)))
  }

  method ParseEntries(body: string) returns (entries: seq<Entry>)
    ensures entries == Entries(body)
  {
    var lines := Split(body);
    entries := [];
    var current: Option<Heading> := None;
    var content: seq<string> := [];
    for i := 0 to |lines|
      invariant Scan(entries, current, content) == FeedAll(START, lines[..i])
    {
      assert Front(lines[..i+1]) == lines[..i] && Last(lines[..i+1]) == lines[i];
      var heading := MatchHeading(lines[i]);
      if heading.Some? {
        if current.Some? {
          entries := entries + [Entry(current.value, Strip(Join(content)))];
        }
        current, content := heading, [];
      } else if current.Some? {
        content := content + [lines[i]];
      }
    }
    assert lines[..|lines|] == lines;
    if current.Some? {
      entries := entries + [Entry(current.value, Strip(Join(content)))];
    }
  }

  lemma {:induction false} FeedConcat(s: Scan, a: seq<string>, b: seq<string>)
    ensures FeedAll(s, a + b) == FeedAll(FeedAll(s, a), b)
  {
    if b == [] {
      assert a + b == a;
    } else {
      assert Front(a + b) == a + Front(b) && Last(a + b) == Last(b);
      FeedConcat(s, a, Front(b));
    }
  }

  predicate NoHeadings(lines: seq<string>) {
    forall k :: 0 <= k < |lines| ==> MatchHeading(lines[k]).None?
  }

  lemma {:induction false} FeedPlain(s: Scan, lines: seq<string>)
    requires NoHeadings(lines)
    ensures FeedAll(s, lines) == if s.pending.Some? then s.(content := s.content + lines) else s
  {
    if lines != [] {
      FeedPlain(s, Front(lines));
      assert lines == Front(lines) + [Last(lines)];
    }
  }

  lemma BlankLineIsNoHeading(line: string)
    requires Blank(line)
    ensures MatchHeading(line).None?
  {
    assert "###"[0] == '#' && !IsSpace('#');
  }

  lemma BlankLinesAreNoHeadings(lines: seq<string>)
    requires forall line :: line in lines ==> Blank(line)
    ensures NoHeadings(lines)
  {
    forall k | 0 <= k < |lines| ensures MatchHeading(lines[k]).None? {
      assert lines[k] in lines;
      BlankLineIsNoHeading(lines[k]);
    }
  }

  lemma JoinWithBlanks(lines: seq<string>, blanks: seq<string>) returns (w: string)
    requires lines != [] && blanks != [] && forall line :: line in blanks ==> Blank(line)
    ensures Join(lines + blanks) == Join(lines) + w && Blank(w)
  {
    JoinConcat(lines, blanks);
    JoinBlank(blanks);
    w := "\n" + Join(blanks);
  }

  lemma JoinSnocBlank(lines: seq<string>, blanks: seq<string>)
    requires lines != [] && blanks != [] && forall line :: line in blanks ==> Blank(line)
    ensures Strip(Join(lines + blanks)) == Strip(Join(lines))
  {
    var w := JoinWithBlanks(lines, blanks);
    StripBlank(Join(lines), w);
  }

  // ----- the appender -----

  function Details(description: string, impact: string): string {
    "\n" + (description + ("\n\n**Impact**: " + (impact + "\n")))
  }

  function EntryText(h: Heading, description: string, impact: string): string {
    "\n" + (HeadingLine(h) + ("\n" + Details(description, impact)))
  }

  function Appended(body: string, h: Heading, description: string, impact: string): string {
    RStrip(body) + ("\n" + EntryText(h, description, impact))
  }

  lemma FourJoined(a: string, b: string, c: string, d: string)
    ensures a + (b + (c + d)) == a + b + c + d
  {
  }

  lemma HeadingLineSays(id: string, date: string, theme: string, title: string)
    ensures HeadingLine(Heading(id, date, theme, title)) ==
            "### " + id + ": " + date + " [" + theme + "] " + title
  {
    FourJoined(date, " [", theme, "] " + title);
    FourJoined("### ", id, ": ", date + " [" + theme + ("] " + title));
  }

  lemma DetailsSay(description: string, impact: string)
    ensures Details(description, impact) == "\n" + description + "\n\n**Impact**: " + impact + "\n"
  {
    FourJoined("\n" + description, "\n\n**Impact**: ", impact, "\n");
  }

  /** What is written after the old text, less its trailing blanks: an empty line, the heading, an empty line, the
      description, an empty line, the impact with its label, and a line end. */
  lemma AppendedText(body: string, h: Heading, description: string, impact: string)
    ensures Appended(body, h, description, impact) == RStrip(body) + "\n" + "\n" +
            ("### " + h.id + ": " + h.date + " [" + h.theme + "] " + h.title) + "\n" +
            ("\n" + description + "\n\n**Impact**: " + impact + "\n")
  {
    HeadingLineSays(h.id, h.date, h.theme, h.title);
    DetailsSay(description, impact);
    FourJoined(RStrip(body) + "\n", "\n", HeadingLine(h), "\n" + Details(description, impact));
  }

  /** What is read back as the content of an entry: the description, an empty line and the impact with its label. */
  lemma {:induction false} ContentSays(description: string, impact: string)
    ensures Strip(Details(description, impact)) == Strip(description + ("\n\n**Impact**: " + impact))
    ensures description != [] && impact != [] && !IsSpace(description[0]) && !IsSpace(impact[|impact|-1]) ==>
              Strip(Details(description, impact)) == description + ("\n\n**Impact**: " + impact)
  {
    var content := description + ("\n\n**Impact**: " + impact);
    assert Details(description, impact) == "\n" + (content + "\n");
    assert ("\n" + (content + "\n"))[1..] == content + "\n";
    StripBlank(content, "\n");
    assert Strip(Details(description, impact)) == RStrip(LStrip(content + "\n"));
    if description != [] && impact != [] && !IsSpace(description[0]) && !IsSpace(impact[|impact|-1]) {
      assert content[0] == description[0] && content[|content|-1] == impact[|impact|-1];
    }
  }

  /** A one-line heading that its pattern gives back. */
  predicate IsHeading(h: Heading) {
    IsId(h.id) && IsDate(h.date) && IsTheme(h.theme) && IsTitle(h.title)
  }

  predicate PlainDetails(description: string, impact: string) {
    NoHeadings(Split(Details(description, impact)))
  }

  lemma SplitAppended(body: string, h: Heading, description: string, impact: string)
    requires IsHeading(h)
    ensures Split(Appended(body, h, description, impact)) ==
            Split(RStrip(body)) + ([""] + ([HeadingLine(h)] + Split(Details(description, impact))))
  {
    var details := Details(description, impact);
    SplitAtNewline(RStrip(body), EntryText(h, description, impact));
    assert EntryText(h, description, impact) == "" + ("\n" + (HeadingLine(h) + ("\n" + details)));
    SplitAtNewline("", HeadingLine(h) + ("\n" + details));
    SplitAtNewline(HeadingLine(h), details);
    SplitOneLine(HeadingLine(h));
    assert Split("") == [""];
  }

  /** The last line that is not blank, with the blanks that follow it on the line. */
  function LastLine(body: string): string {
    RStripSplits(body);
    Last(Split(RStrip(body))) + Split(body[|RStrip(body)|..])[0]
  }

  /** The last line that is not blank is no heading with blanks at its end. */
  predicate SafeEnd(body: string) {
    MatchHeading(LastLine(body)).Some? ==> LastLine(body) == Last(Split(RStrip(body)))
  }

  lemma ClosedAlike(s: Scan, x: string, w: string, blanks: seq<string>)
    requires Blank(w) && (forall line :: line in blanks ==> Blank(line))
    requires MatchHeading(x + w) == MatchHeading(x)
    ensures Close(FeedAll(Feed(s, x + w), blanks)) == Close(FeedAll(Feed(s, x), [""]))
  {
    BlankLinesAreNoHeadings(blanks);
    BlankLinesAreNoHeadings([""]);
    FeedPlain(Feed(s, x + w), blanks);
    FeedPlain(Feed(s, x), [""]);
    if MatchHeading(x).Some? {
      JoinBlank(blanks);
      StripOfBlank(Join(blanks));
      StripOfBlank("");
      assert [] + blanks == blanks && [] + [""] == [""] && Join([""]) == "";
    } else if s.pending.Some? {
      JoinLongerLast(s.content, x, w);
      StripBlank(Join(s.content + [x]), w);
      if blanks != [] {
        JoinSnocBlank(s.content + [x + w], blanks);
      } else {
        assert s.content + [x + w] + blanks == s.content + [x + w];
      }
      JoinSnocBlank(s.content + [x], [""]);
    }
  }

  lemma ClosedApart(s: Scan, x: string, w: string, blanks: seq<string>)
    requires forall line :: line in blanks ==> Blank(line)
    requires MatchHeading(x + w).Some? && MatchHeading(x + w) != MatchHeading(x)
    ensures Close(FeedAll(Feed(s, x + w), blanks)) != Close(FeedAll(Feed(s, x), [""]))
  {
    BlankLinesAreNoHeadings(blanks);
    BlankLinesAreNoHeadings([""]);
    FeedPlain(Feed(s, x + w), blanks);
    FeedPlain(Feed(s, x), [""]);
    var long := Close(FeedAll(Feed(s, x + w), blanks));
    assert long[|long|-1].heading == MatchHeading(x + w).value;
    if MatchHeading(x).Some? {
      var short := Close(FeedAll(Feed(s, x), [""]));
      assert short[|short|-1].heading == MatchHeading(x).value;
    }
  }

  lemma BodyIsGlued(body: string)
    ensures var b := RStrip(body);
            |b| <= |body| && Blank(body[|b|..]) && Split(body) == Glue(Split(b), Split(body[|b|..]))
  {
    RStripSplits(body);
    var b := RStrip(body);
    assert body == b + body[|b|..];
    SplitConcat(b, body[|b|..]);
  }

  lemma LinesOfBody(body: string)
    ensures var b := RStrip(body);
            && |b| <= |body|
            && Split(body) == Front(Split(b)) + ([LastLine(body)] + Split(body[|b|..])[1..])
            && Blank(Split(body[|b|..])[0])
            && (forall line :: line in Split(body[|b|..])[1..] ==> Blank(line))
  {
    BodyIsGlued(body);
    RStripSplits(body);
    var b := RStrip(body);
    var ws := Split(body[|b|..]);
    SplitBlank(body[|b|..]);
    BlankParts(ws);
    GlueRegrouped(Split(b), ws);
  }

  lemma BlankParts(ws: seq<string>)
    requires ws != [] && forall line :: line in ws ==> Blank(line)
    ensures Blank(ws[0]) && forall line :: line in ws[1..] ==> Blank(line)
  {
  }

  lemma GlueRegrouped(lines: seq<string>, ws: seq<string>)
    requires lines != [] && ws != []
    ensures Glue(lines, ws) == Front(lines) + ([Last(lines) + ws[0]] + ws[1..])
  {
  }

  /** What is left of the old entries in front of the new heading: all of them, exactly when the end is safe. */
  lemma OldEntriesKept(body: string)
    ensures Close(FeedAll(START, Split(RStrip(body)) + [""])) == Entries(body) <==> SafeEnd(body)
  {
    var b := RStrip(body);
    LinesOfBody(body);
    var lines, ws := Split(b), Split(body[|b|..]);
    RStripSplits(body);
    LastLineEnd(b);
    FrontAndLast(lines);
    LastLineDecides(Front(lines), Last(lines), ws[0], ws[1..]);
  }

  lemma FrontAndLast(lines: seq<string>)
    requires lines != []
    ensures lines == Front(lines) + [Last(lines)]
  {
  }

  /** The same on lines: the last line that is not blank, without and with the blanks that follow it. */
  lemma LastLineDecides(front: seq<string>, x: string, w: string, blanks: seq<string>)
    requires Blank(w) && (forall line :: line in blanks ==> Blank(line)) && (x != [] ==> !IsSpace(x[|x|-1]))
    ensures Close(FeedAll(START, (front + [x]) + [""])) == Close(FeedAll(START, front + ([x + w] + blanks)))
            <==> (MatchHeading(x + w).Some? ==> x + w == x)
  {
    FeedsOf(front, x, w, blanks);
    var s := FeedAll(START, front);
    TrailingBlanksMatter(x, w);
    if MatchHeading(x + w) == MatchHeading(x) {
      ClosedAlike(s, x, w, blanks);
      assert w == [] ==> x + w == x;
    } else {
      ClosedApart(s, x, w, blanks);
      assert |x + w| != |x|;
    }
  }

  lemma FeedsOf(front: seq<string>, x: string, w: string, blanks: seq<string>)
    ensures var s := FeedAll(START, front);
            && FeedAll(START, (front + [x]) + [""]) == FeedAll(Feed(s, x), [""])
            && FeedAll(START, front + ([x + w] + blanks)) == FeedAll(Feed(s, x + w), blanks)
  {
    var s := FeedAll(START, front);
    FeedConcat(START, front + [x], [""]);
    FeedConcat(START, front, [x]);
    FeedConcat(START, front, [x + w] + blanks);
    FeedConcat(s, [x + w], blanks);
    FeedOne(s, x);
    FeedOne(s, x + w);
  }

  lemma FeedOne(s: Scan, line: string)
    ensures FeedAll(s, [line]) == Feed(s, line)
  {
    assert Front([line]) == [];
  }

  /** The appended text closes whatever was open and adds its own entry. */
  lemma AppendedEntries(body: string, h: Heading, description: string, impact: string)
    requires IsHeading(h) && PlainDetails(description, impact)
    ensures Entries(Appended(body, h, description, impact)) ==
            Close(FeedAll(START, Split(RStrip(body)) + [""])) + [Entry(h, Strip(Details(description, impact)))]
  {
    var details := Details(description, impact);
    SplitAppended(body, h, description, impact);
    MatchFormatted(h);
    FeedAppended(Split(RStrip(body)), HeadingLine(h), h, Split(details));
    JoinSplit(details);
  }

  lemma FeedAppended(lines: seq<string>, line: string, h: Heading, after: seq<string>)
    requires MatchHeading(line) == Some(h) && NoHeadings(after)
    ensures Close(FeedAll(START, lines + ([""] + ([line] + after))))
         == Close(FeedAll(START, lines + [""])) + [Entry(h, Strip(Join(after)))]
  {
    Regrouped(lines, [""], [line] + after);
    FeedAfter(lines + [""], line, h, after);
  }

  lemma Regrouped(a: seq<string>, b: seq<string>, c: seq<string>)
    ensures a + (b + c) == (a + b) + c
  {
  }

  lemma FeedAfter(before: seq<string>, line: string, h: Heading, after: seq<string>)
    requires MatchHeading(line) == Some(h) && NoHeadings(after)
    ensures Close(FeedAll(START, before + ([line] + after)))
         == Close(FeedAll(START, before)) + [Entry(h, Strip(Join(after)))]
  {
    FeedConcat(START, before, [line] + after);
    FeedHeading(FeedAll(START, before), line, h, after);
  }

  lemma FeedHeading(s: Scan, line: string, h: Heading, after: seq<string>)
    requires MatchHeading(line) == Some(h) && NoHeadings(after)
    ensures Close(FeedAll(s, [line] + after)) == Close(s) + [Entry(h, Strip(Join(after)))]
  {
    FeedConcat(s, [line], after);
    assert Front([line]) == [];
    var started := Scan(Close(s), Some(h), []);
    assert FeedAll(s, [line]) == started;
    FeedPlain(started, after);
    assert [] + after == after;
  }

  /** Parsing after an append gives the old entries and exactly the new one, exactly when the body did not end in a
      heading line with trailing blanks. */
  lemma {:induction false} ParseUndoesAppend(body: string, h: Heading, description: string, impact: string)
    requires IsHeading(h) && PlainDetails(description, impact)
    ensures var entry := Entry(h, Strip(Details(description, impact)));
            Entries(Appended(body, h, description, impact)) == Entries(body) + [entry] <==> SafeEnd(body)
  {
    AppendedEntries(body, h, description, impact);
    OldEntriesKept(body);
    SnocInjective(Close(FeedAll(START, Split(RStrip(body)) + [""])), Entries(body),
                  Entry(h, Strip(Details(description, impact))));
  }

  /** Such logs exist: for every heading, the log that consists of it and one more blank. */
  lemma {:induction false} TrailingBlankIsUnsafe(h: Heading)
    requires IsHeading(h) && !IsSpace(h.title[|h.title|-1])
    ensures !SafeEnd(HeadingLine(h) + " ")
  {
    var line, body := HeadingLine(h), HeadingLine(h) + " ";
    assert line[|line|-1] == h.title[|h.title|-1];
    assert body[..|body|-1] == line;
    assert RStrip(line) == line && RStrip(body) == line;
    SplitOneLine(line);
    assert body[|line|..] == " ";
    SplitOneLine(" ");
    assert LastLine(body) == line + " ";
    LongerTitleIsHeading(h);
  }

  lemma LongerTitleIsHeading(h: Heading)
    requires IsHeading(h) && !IsSpace(h.title[|h.title|-1])
    ensures MatchHeading(HeadingLine(h) + " ").Some?
  {
    MatchFormatted(h);
    ShorterHeadingNeedsLonger(HeadingLine(h), " ");
  }

  lemma SnocInjective(a: seq<Entry>, b: seq<Entry>, e: Entry)
    ensures a + [e] == b + [e] <==> a == b
  {
    assert (a + [e])[..|a|] == a && (b + [e])[..|b|] == b;
  }

  // ----- ids -----

  /** The number in an entry's id. */
  function Number(e: Entry): nat {
    if IsId(e.heading.id) then ToNumber(e.heading.id[1..]) else 0
  }

  function MaxNumber(entries: seq<Entry>): nat {
    if entries == [] then 0 else
      var m, n := MaxNumber(entries[..|entries|-1]), Number(entries[|entries|-1]);
      if n > m then n else m
  }

  lemma {:induction false} MaxNumberBounds(entries: seq<Entry>, e: Entry)
    requires e in entries
    ensures Number(e) <= MaxNumber(entries)
  {
    var front := entries[..|entries|-1];
    assert entries == front + [entries[|entries|-1]];
    if e in front {
      MaxNumberBounds(front, e);
    }
  }

  function NextId(body: string): string {
    "F" + Pad3(MaxNumber(Entries(body)) + 1)
  }

  predicate HaveIds(entries: seq<Entry>) {
    forall k :: 0 <= k < |entries| ==> IsId(entries[k].heading.id)
  }

  lemma FeedKeepsIds(s: Scan, line: string)
    requires HaveIds(s.done) && (s.pending.Some? ==> IsId(s.pending.value.id))
    ensures var s' := Feed(s, line); HaveIds(s'.done) && (s'.pending.Some? ==> IsId(s'.pending.value.id))
  {
    if MatchHeading(line).Some? { MatchedIdIsId(line); }
  }

  lemma {:induction false} FedHaveIds(lines: seq<string>)
    ensures var s := FeedAll(START, lines); HaveIds(s.done) && (s.pending.Some? ==> IsId(s.pending.value.id))
  {
    if lines != [] {
      FedHaveIds(Front(lines));
      FeedKeepsIds(FeedAll(START, Front(lines)), Last(lines));
    }
  }

  lemma ClosedHaveIds(s: Scan)
    requires HaveIds(s.done) && (s.pending.Some? ==> IsId(s.pending.value.id))
    ensures HaveIds(Close(s))
  {
  }

  lemma NumbersAreBounded(entries: seq<Entry>, e: Entry)
    requires HaveIds(entries) && e in entries
    ensures IsId(e.heading.id) && ToNumber(e.heading.id[1..]) <= MaxNumber(entries)
  {
    var k :| 0 <= k < |entries| && entries[k] == e;
    MaxNumberBounds(entries, e);
  }

  lemma NumberOfNew(n: nat)
    ensures ToNumber(("F" + Pad3(n))[1..]) == n
  {
    PaddedReadsBack(n);
    assert ("F" + Pad3(n))[1..] == Pad3(n);
  }

  /** Every entry that is read has a number, and the next id is above all of them. */
  lemma {:induction false} NextIdIsAbove(body: string, e: Entry)
    requires e in Entries(body)
    ensures IsId(e.heading.id) && ToNumber(e.heading.id[1..]) < ToNumber(NextId(body)[1..])
  {
    FedHaveIds(Split(body));
    ClosedHaveIds(FeedAll(START, Split(body)));
    NumbersAreBounded(Entries(body), e);
    NumberOfNew(MaxNumber(Entries(body)) + 1);
  }

  lemma AllBelowNextId(body: string)
    ensures forall e :: e in Entries(body) ==>
              IsId(e.heading.id) && ToNumber(e.heading.id[1..]) < ToNumber(NextId(body)[1..])
  {
    forall e | e in Entries(body)
      ensures IsId(e.heading.id) && ToNumber(e.heading.id[1..]) < ToNumber(NextId(body)[1..])
    {
      NextIdIsAbove(body, e);
    }
  }

  method GetNextEntryId(body: string) returns (id: string)
    ensures id == NextId(body)
    ensures forall e :: e in Entries(body) ==>
              IsId(e.heading.id) && ToNumber(e.heading.id[1..]) < ToNumber(id[1..])
  {
    var entries := ParseEntries(body);
    if entries == [] {
      return "F001";
    }
    var maxNumber := 0;
    for i := 0 to |entries|
      invariant maxNumber == MaxNumber(entries[..i])
    {
      assert entries[..i+1][..i] == entries[..i];
      if IsId(entries[i].heading.id) {
        var number := Number(entries[i]);
        maxNumber := if number > maxNumber then number else maxNumber;
      }
    }
    assert entries[..|entries|] == entries;
    id := "F" + Pad3(maxNumber + 1);
    AllBelowNextId(body);
  }

  lemma NextIdIsId(body: string)
    ensures IsId(NextId(body)) && '\n' !in NextId(body)
    ensures forall h: Heading, content :: h.id == NextId(body) ==>
              Number(Entry(h, content)) == MaxNumber(Entries(body)) + 1
  {
    var n := MaxNumber(Entries(body)) + 1;
    PaddedReadsBack(n);
    PaddedDigits(n);
    var id := NextId(body);
    assert id[1..] == Pad3(n);
    forall k | 1 <= k < |id| ensures IsDigit(id[k]) {
      assert id[k] == Pad3(n)[k-1];
    }
  }

  // ----- runs of appends -----

  datatype Call = Call(title: string, description: string, impact: string, theme: string, date: string)

  /** Trimmed one-line title, a date, a theme without ']', and no heading in the text. */
  predicate GoodCall(c: Call) {
    IsDate(c.date) && IsTheme(c.theme) && IsTitle(c.title) && PlainDetails(c.description, c.impact)
  }

  function HeadingFor(body: string, c: Call): Heading {
    Heading(NextId(body), c.date, c.theme, c.title)
  }

  function AfterCall(body: string, c: Call): string {
    Appended(body, HeadingFor(body, c), c.description, c.impact)
  }

  lemma DetailsNotBlank(description: string, impact: string)
    ensures !Blank(Details(description, impact))
  {
    var at := 1 + |description| + 2;
    assert Details(description, impact)[at] == '*';
  }

  /** An appended log ends safely, so the next append loses nothing either. */
  lemma {:induction false} AppendedEndsSafely(body: string, h: Heading, description: string, impact: string)
    requires IsHeading(h) && PlainDetails(description, impact)
    ensures SafeEnd(Appended(body, h, description, impact))
  {
    SplitAppended(body, h, description, impact);
    var lines, heading, details := Split(RStrip(body)), [HeadingLine(h)], Split(Details(description, impact));
    Regrouped(lines, [""], heading + details);
    Regrouped(lines + [""], heading, details);
    SomeLineNotBlank(description, impact);
    EndsInPlainLines(Appended(body, h, description, impact), (lines + [""]) + heading, details);
  }

  /** A text whose last lines are not all blank, and no headings, ends safely. */
  lemma EndsInPlainLines(text: string, pre: seq<string>, details: seq<string>)
    requires Split(text) == pre + details && NoHeadings(details) && !AllBlank(details)
    ensures SafeEnd(text)
  {
    LinesOfBody(text);
    var b := RStrip(text);
    CutsCompared(pre, details, Front(Split(b)), LastLine(text), Split(text[|b|..])[1..]);
    assert LastLine(text) in details;
  }

  predicate AllBlank(lines: seq<string>) {
    forall k :: 0 <= k < |lines| ==> Blank(lines[k])
  }

  lemma SomeLineNotBlank(description: string, impact: string)
    ensures !AllBlank(Split(Details(description, impact)))
  {
    var details := Split(Details(description, impact));
    if AllBlank(details) {
      JoinBlank(details);
    }
    JoinSplit(Details(description, impact));
    DetailsNotBlank(description, impact);
  }

  /** A list cut in two ways: the single line of the second cut is in the later part of the first, or all of that
      part comes after it. */
  lemma CutsCompared(pre: seq<string>, details: seq<string>, front: seq<string>, x: string, after: seq<string>)
    requires pre + details == front + ([x] + after)
    ensures x in details || forall k :: 0 <= k < |details| ==> details[k] in after
  {
    var lines := pre + details;
    assert lines[|front|] == x;
    if |front| < |pre| {
      forall k | 0 <= k < |details| ensures details[k] in after {
        assert lines[|pre| + k] == details[k];
        assert lines[|pre| + k] == after[|pre| + k - |front| - 1];
      }
    } else {
      assert details[|front| - |pre|] == x;
    }
  }

  function EntryFor(body: string, c: Call): Entry {
    Entry(HeadingFor(body, c), Strip(Details(c.description, c.impact)))
  }

  lemma MaxNumberSnoc(entries: seq<Entry>, e: Entry)
    ensures MaxNumber(entries + [e]) == if Number(e) > MaxNumber(entries) then Number(e) else MaxNumber(entries)
  {
    assert (entries + [e])[..|entries|] == entries;
  }

  lemma OneCall(body: string, c: Call)
    requires SafeEnd(body) && GoodCall(c)
    ensures Entries(AfterCall(body, c)) == Entries(body) + [EntryFor(body, c)]
    ensures SafeEnd(AfterCall(body, c))
    ensures Number(EntryFor(body, c)) == MaxNumber(Entries(body)) + 1 == MaxNumber(Entries(AfterCall(body, c)))
  {
    NextIdIsId(body);
    ParseUndoesAppend(body, HeadingFor(body, c), c.description, c.impact);
    AppendedEndsSafely(body, HeadingFor(body, c), c.description, c.impact);
    MaxNumberSnoc(Entries(body), EntryFor(body, c));
  }

  predicate Calls(body: string, c: Call, after: string) {
    GoodCall(c) && after == AfterCall(body, c)
  }

  ghost predicate AppendRun(bodies: seq<string>, calls: seq<Call>) {
    && |bodies| == |calls| + 1 && SafeEnd(bodies[0])
    && forall i :: 0 <= i < |calls| ==> Calls(bodies[i], calls[i], bodies[i+1])
  }

  /** What holds of the first and is kept by every step holds of all. */
  lemma {:induction false} HoldsOfAll<T>(q: seq<T>, p: T -> bool, k: nat)
    requires k < |q| && p(q[0]) && forall i :: 0 < i < |q| && p(q[i-1]) ==> p(q[i])
    ensures p(q[k])
  {
    if k > 0 { HoldsOfAll(q, p, k - 1); }
  }

  lemma RunStaysSafe(bodies: seq<string>, calls: seq<Call>, k: nat)
    requires AppendRun(bodies, calls) && k < |bodies|
    ensures SafeEnd(bodies[k])
  {
    var safe: string -> bool := body => SafeEnd(body);
    forall i | 0 < i < |bodies| && safe(bodies[i-1]) ensures safe(bodies[i]) {
      CallOfRun(bodies, calls, i - 1);
    }
    HoldsOfAll(bodies, safe, k);
  }

  lemma CallOfRun(bodies: seq<string>, calls: seq<Call>, i: nat)
    requires AppendRun(bodies, calls) && i < |calls| && SafeEnd(bodies[i])
    ensures GoodCall(calls[i]) && bodies[i+1] == AfterCall(bodies[i], calls[i]) && SafeEnd(bodies[i+1])
  {
    assert Calls(bodies[i], calls[i], bodies[i+1]);
    OneCall(bodies[i], calls[i]);
  }

  /** One more entry, numbered one above all the others. */
  ghost predicate Grows(before: seq<Entry>, e: Entry, after: seq<Entry>) {
    after == before + [e] && Number(e) == MaxNumber(before) + 1 == MaxNumber(after)
  }

  lemma RunStep(bodies: seq<string>, calls: seq<Call>, i: nat)
    requires AppendRun(bodies, calls) && i < |calls|
    ensures Grows(Entries(bodies[i]), EntryFor(bodies[i], calls[i]), Entries(bodies[i+1]))
  {
    RunStaysSafe(bodies, calls, i);
    CallOfRun(bodies, calls, i);
    OneCall(bodies[i], calls[i]);
  }

  lemma {:induction false} GrowingLogs<T>(logs: seq<seq<T>>, made: seq<T>, highest: seq<int>, k: nat)
    requires |logs| == |highest| == |made| + 1 && k < |logs|
    requires forall i :: 0 <= i < |made| ==> logs[i+1] == logs[i] + [made[i]] && highest[i+1] == highest[i] + 1
    ensures logs[k] == logs[0] + made[..k] && highest[k] == highest[0] + k
  {
    if k > 0 {
      GrowingLogs(logs, made, highest, k - 1);
      assert logs[k-1+1] == logs[k-1] + [made[k-1]] && highest[k-1+1] == highest[k-1] + 1;
      assert made[..k] == made[..k-1] + [made[k-1]];
    }
  }

  ghost function LogsOf(bodies: seq<string>): seq<seq<Entry>> {
    seq(|bodies|, i requires 0 <= i < |bodies| => Entries(bodies[i]))
  }

  ghost function HighestOf(bodies: seq<string>): seq<int> {
    seq(|bodies|, i requires 0 <= i < |bodies| => MaxNumber(Entries(bodies[i])))
  }

  /** The entries that the calls make, in order. */
  ghost function MadeBy(bodies: seq<string>, calls: seq<Call>): seq<Entry>
    requires |calls| <= |bodies|
  {
    seq(|calls|, i requires 0 <= i < |calls| => EntryFor(bodies[i], calls[i]))
  }

  /** Over any run of appends the log reads as what it held at first and then one entry a call, and the highest
      number grows by one a call. */
  lemma {:induction false} RunReadsBack(bodies: seq<string>, calls: seq<Call>, k: nat)
    requires AppendRun(bodies, calls) && k < |bodies|
    ensures Entries(bodies[k]) == Entries(bodies[0]) + MadeBy(bodies, calls)[..k]
    ensures MaxNumber(Entries(bodies[k])) == MaxNumber(Entries(bodies[0])) + k
  {
    var logs, made, highest := LogsOf(bodies), MadeBy(bodies, calls), HighestOf(bodies);
    forall i | 0 <= i < |made| ensures logs[i+1] == logs[i] + [made[i]] && highest[i+1] == highest[i] + 1 {
      RunStep(bodies, calls, i);
    }
    GrowingLogs(logs, made, highest, k);
  }

  /** Hence the numbers of the new ids strictly increase, and every new number is above every old one. */
  lemma {:induction false} IdsIncrease(bodies: seq<string>, calls: seq<Call>, i: nat, j: nat)
    requires AppendRun(bodies, calls) && i < j < |calls|
    ensures Number(EntryFor(bodies[i], calls[i])) < Number(EntryFor(bodies[j], calls[j]))
    ensures forall e :: e in Entries(bodies[0]) ==> Number(e) < Number(EntryFor(bodies[i], calls[i]))
  {
    RunReadsBack(bodies, calls, i);
    RunReadsBack(bodies, calls, j);
    RunStep(bodies, calls, i);
    RunStep(bodies, calls, j);
    forall e | e in Entries(bodies[0]) ensures Number(e) <= MaxNumber(Entries(bodies[0])) {
      MaxNumberBounds(Entries(bodies[0]), e);
    }
  }

  // ----- the log file -----

  datatype Theme = Theme(id: string, name: string)

  /** The file: missing, frontmatter that does not validate, or a header with its themes and the body after it. */
  datatype File = Missing | BadHeader | HeaderOnly(themes: seq<Theme>) | Log(themes: seq<Theme>, body: string)

  datatype Reply = Added(id: string) | NoLog | NoFrontmatter | ThemeNeedsName | NoStructure

  function WithTheme(themes: seq<Theme>, id: string, name: Option<string>): seq<Theme> {
    if (exists t :: t in themes && t.id == id) || name.None? then themes else themes + [Theme(id, name.value)]
  }

  class Friction {
    var file: File

    constructor (file: File)
      ensures this.file == file
    {
      this.file := file;
    }

    method AppendEntry(c: Call, themeName: Option<string>) returns (reply: Reply)
      modifies this
      ensures reply.NoLog? <==> old(file).Missing?
      ensures reply.NoFrontmatter? <==> old(file).BadHeader?
      ensures reply.ThemeNeedsName? <==>
        (old(file).HeaderOnly? || old(file).Log?) && (forall t :: t in old(file).themes ==> t.id != c.theme)
        && (themeName.None? || themeName.value == "")
      ensures reply.Added? <==> old(file).Log? && !reply.ThemeNeedsName?
      ensures reply.Added? ==>
        && reply.id == NextId(old(file).body)
        && file == Log(WithTheme(old(file).themes, c.theme, themeName), AfterCall(old(file).body, c))
      ensures !reply.Added? ==> file == old(file)
    {
      if file.Missing? {
        return NoLog;
      }
      if file.BadHeader? {
        return NoFrontmatter;
      }
      var known := exists t :: t in file.themes && t.id == c.theme;
      var themes := file.themes;
      if !known {
        if themeName.None? || themeName.value == "" {
          return ThemeNeedsName;
        }
        themes := themes + [Theme(c.theme, themeName.value)];
      }
      if file.HeaderOnly? {
        return NoStructure;
      }
      var id := GetNextEntryId(file.body);
      file := Log(themes, Appended(file.body, Heading(id, c.date, c.theme, c.title), c.description, c.impact));
      reply := Added(id);
    }
  }
}
