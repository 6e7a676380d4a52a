/** Headings `### F001: 2026-01-12 [theme] Title`. */
module FrictionHeadings {
  import opened TextLines
  import opened Options

  predicate IsDigit(c: char) {
    '0' <= c <= '9'
  }

  datatype Heading = Heading(id: string, date: string, theme: string, title: string)

  function DigitCount(s: string): nat {
    if s != [] && IsDigit(s[0]) then 1 + DigitCount(s[1..]) else 0
  }

  function UntilClose(s: string): nat {
    if s == [] || s[0] == ']' then 0 else 1 + UntilClose(s[1..])
  }

  lemma CountsInRange(s: string)
    ensures DigitCount(s) <= |s| && UntilClose(s) <= |s|
  {
  }

  predicate StartsWithDate(s: string) {
    |s| >= 10 && forall k :: 0 <= k < 10 ==> if k == 4 || k == 7 then s[k] == '-' else IsDigit(s[k])
  }

  /** The heading pattern: `###`, blanks, `F` and digits, a colon, blanks, a date, blanks, a bracketed theme, blanks,
      and a title that is not empty. Blanks are matched greedily and give one back only to an empty title. */
  function MatchHeading(line: string): Option<Heading> {
    if "###" <= line then MatchId(line[3..]) else None
  }

  function MatchId(s: string): Option<Heading> {
    var a := LStrip(s);
    if a == s || a == [] || a[0] != 'F' then None else
    CountsInRange(a[1..]);
    var d := DigitCount(a[1..]);
    if d == 0 || 1 + d == |a| || a[1+d] != ':' then None else MatchDate(a[2+d..], a[..1+d])
  }

  function MatchDate(s: string, id: string): Option<Heading> {
    var a := LStrip(s);
    if a == s || !StartsWithDate(a) then None else MatchTheme(a[10..], id, a[..10])
  }

  function MatchTheme(s: string, id: string, date: string): Option<Heading> {
    var a := LStrip(s);
    if a == s || a == [] || a[0] != '[' then None else
    CountsInRange(a[1..]);
    var n := UntilClose(a[1..]);
    if n == 0 || 1 + n == |a| then None else
    var title := TitleOf(a[2+n..]);
    if title == [] then None else Some(Heading(id, date, a[1..1+n], title))
  }

  function TitleOf(rest: string): string {
    var t := LStrip(rest);
    if t != [] then if t == rest then [] else t
    else if |rest| >= 2 then [rest[|rest|-1]] else []
  }

  function HeadingLine(h: Heading): string {
    "### " + (h.id + (": " + (h.date + (" [" + (h.theme + ("] " + h.title))))))
  }

  predicate IsId(id: string) {
    |id| >= 2 && id[0] == 'F' && forall k :: 1 <= k < |id| ==> IsDigit(id[k])
  }

  predicate IsTheme(theme: string) {
    theme != [] && ']' !in theme && '\n' !in theme
  }

  /** A title that the pattern gives back: trimmed on the left, or a single blank. */
  predicate IsTitle(title: string) {
    title != [] && '\n' !in title && (!IsSpace(title[0]) || |title| == 1)
  }

  predicate IsDate(date: string) {
    |date| == 10 && StartsWithDate(date)
  }

  lemma {:induction false} DigitsThen(ds: string, more: string)
    requires forall k :: 0 <= k < |ds| ==> IsDigit(ds[k])
    requires more == [] || !IsDigit(more[0])
    ensures DigitCount(ds + more) == |ds|
  {
    if ds == [] {
      assert ds + more == more;
    } else {
      assert (ds + more)[1..] == ds[1..] + more;
      DigitsThen(ds[1..], more);
    }
  }

  lemma {:induction false} ThemeThen(theme: string, more: string)
    requires ']' !in theme
    ensures UntilClose(theme + "]" + more) == |theme|
  {
    if theme == [] {
      assert (theme + "]" + more)[0] == ']';
    } else {
      assert (theme + "]" + more)[1..] == theme[1..] + "]" + more;
      ThemeThen(theme[1..], more);
    }
  }

  lemma OneBlank(more: string)
    requires more != [] && !IsSpace(more[0])
    ensures LStrip(" " + more) == more
  {
    assert (" " + more)[1..] == more;
  }

  lemma TitleAfterBlank(title: string)
    requires title != []
    ensures TitleOf(" " + title) == title <==> !IsSpace(title[0]) || |title| == 1
  {
    assert (" " + title)[1..] == title;
    LStripShortens(title);
    if IsSpace(title[0]) {
      assert LStrip(" " + title) == LStrip(title) == LStrip(title[1..]);
      LStripShortens(title[1..]);
      if |title| == 1 {
        assert title == [title[0]];
      }
    }
  }

  lemma LStripShortens(s: string)
    ensures |LStrip(s)| <= |s|
    ensures s != [] && IsSpace(s[0]) ==> |LStrip(s)| < |s|
  {
  }

  lemma MatchThemeFormatted(h: Heading)
    requires IsTheme(h.theme) && h.title != []
    ensures MatchTheme(" [" + (h.theme + ("] " + h.title)), h.id, h.date) == Some(h) <==>
            !IsSpace(h.title[0]) || |h.title| == 1
  {
    var a := "[" + (h.theme + ("] " + h.title));
    assert " [" + (h.theme + ("] " + h.title)) == " " + a;
    OneBlank(a);
    assert a[1..] == h.theme + "]" + (" " + h.title);
    ThemeThen(h.theme, " " + h.title);
    assert a[1..1+|h.theme|] == h.theme && a[2+|h.theme|..] == " " + h.title;
    TitleAfterBlank(h.title);
  }

  lemma MatchDateFormatted(id: string, date: string, more: string)
    requires IsDate(date)
    ensures MatchDate(" " + (date + more), id) == MatchTheme(more, id, date)
  {
    var a := date + more;
    OneBlank(a);
    assert forall k :: 0 <= k < 10 ==> a[k] == date[k];
    assert a[..10] == date && a[10..] == more;
  }

  lemma MatchIdFormatted(id: string, more: string)
    requires IsId(id)
    ensures MatchId(" " + (id + (":" + more))) == MatchDate(more, id)
  {
    var a := id + (":" + more);
    OneBlank(a);
    assert a[1..] == id[1..] + (":" + more);
    DigitsThen(id[1..], ":" + more);
    assert a[..|id|] == id && a[|id|+1..] == more;
  }

  /** A formatted heading is matched back part by part, exactly when its title is one that the pattern gives back. */
  lemma {:induction false} MatchFormatted(h: Heading)
    requires IsId(h.id) && IsDate(h.date) && IsTheme(h.theme) && h.title != []
    ensures MatchHeading(HeadingLine(h)) == Some(h) <==> !IsSpace(h.title[0]) || |h.title| == 1
  {
    var more := " [" + (h.theme + ("] " + h.title));
    var dated := " " + (h.date + more);
    assert ": " + (h.date + more) == ":" + dated;
    var rest := " " + (h.id + (":" + dated));
    assert HeadingLine(h) == "###" + rest && HeadingLine(h)[3..] == rest;
    MatchIdFormatted(h.id, dated);
    MatchDateFormatted(h.id, h.date, more);
    MatchThemeFormatted(h);
  }

  // ----- the pattern, read as a pattern -----

  /** Spaces, tabs, line and page ends, and the four separators; at least one of them. */
  predicate Blanks(b: string) {
    && b != []
    && forall k :: 0 <= k < |b| ==> b[k] == ' ' || '\t' <= b[k] <= '\r' || 28 as char <= b[k] <= 31 as char
  }

  /** What the pattern gives as a title: any text that begins with no blank, or a single blank where there is no other.
      */
  predicate CanBeTitle(title: string) {
    title != [] && (!IsSpace(title[0]) || |title| == 1)
  }

  predicate ThemeShape(s: string, theme: string, title: string, b: string, c: string) {
    Blanks(b) && Blanks(c) && theme != [] && ']' !in theme && CanBeTitle(title)
    && s == b + ("[" + (theme + "]" + (c + title)))
  }

  /** Four digits, two and two, with hyphens in between. */
  predicate DateForm(date: string) {
    && |date| == 10 && date[4] == '-' && date[7] == '-'
    && forall k :: 0 <= k < 10 && k != 4 && k != 7 ==> '0' <= date[k] <= '9'
  }

  /** An F and at least one digit. */
  predicate IdForm(id: string) {
    |id| >= 2 && id[0] == 'F' && forall k :: 1 <= k < |id| ==> '0' <= id[k] <= '9'
  }

  predicate DateShape(s: string, date: string, more: string, b: string) {
    Blanks(b) && DateForm(date) && s == b + (date + more)
  }

  predicate IdShape(s: string, id: string, more: string, b: string) {
    Blanks(b) && IdForm(id) && s == b + (id + (":" + more))
  }

  /** `###`, blanks, an id, a colon, blanks, a date, blanks, a theme in brackets, blanks, and a title. */
  ghost predicate HeadingShape(line: string, h: Heading) {
    exists b1, b2, b3, b4, dated, themed ::
      && "###" <= line && IdShape(line[3..], h.id, dated, b1) && DateShape(dated, h.date, themed, b2)
      && ThemeShape(themed, h.theme, h.title, b3, b4)
  }

  lemma {:induction false} BlanksThen(b: string, more: string)
    requires Blank(b) && more != [] && !IsSpace(more[0])
    ensures LStrip(b + more) == more
  {
    if b == [] {
      assert b + more == more;
    } else {
      assert (b + more)[1..] == b[1..] + more;
      BlanksThen(b[1..], more);
    }
  }

  lemma {:induction false} LStripSplits(s: string) returns (b: string)
    ensures Blank(b) && s == b + LStrip(s) && (LStrip(s) != s <==> b != [])
    ensures LStrip(s) != [] ==> !IsSpace(LStrip(s)[0])
  {
    if s != [] && IsSpace(s[0]) {
      var rest := LStripSplits(s[1..]);
      b := [s[0]] + rest;
      LStripShortens(s);
    } else {
      b := [];
    }
  }

  lemma {:induction false} UntilCloseSplits(s: string)
    ensures UntilClose(s) <= |s| && ']' !in s[..UntilClose(s)]
    ensures UntilClose(s) < |s| ==> s[UntilClose(s)] == ']'
  {
    if s != [] && s[0] != ']' {
      UntilCloseSplits(s[1..]);
      assert s[..UntilClose(s)] == [s[0]] + s[1..][..UntilClose(s[1..])];
    }
  }

  lemma TitleShape(rest: string, title: string, c: string)
    requires Blanks(c) && CanBeTitle(title) && rest == c + title
    ensures TitleOf(rest) == title
  {
    if IsSpace(title[0]) {
      assert Blank(rest) && |rest| >= 2;
      LStripBlank([], rest);
      assert [] + rest == rest;
      assert title == [rest[|rest|-1]];
    } else {
      BlanksThen(c, title);
    }
  }

  lemma TitleFound(rest: string) returns (c: string)
    requires TitleOf(rest) != []
    ensures Blanks(c) && CanBeTitle(TitleOf(rest)) && rest == c + TitleOf(rest)
  {
    c := LStripSplits(rest);
    if LStrip(rest) == [] {
      c := rest[..|rest|-1];
    }
  }

  lemma ThemeMatches(s: string, id: string, date: string, h: Heading)
    ensures MatchTheme(s, id, date) == Some(h) <==>
              h.id == id && h.date == date && exists b, c :: ThemeShape(s, h.theme, h.title, b, c)
  {
    if MatchTheme(s, id, date) == Some(h) {
      var a := LStrip(s);
      var b := LStripSplits(s);
      UntilCloseSplits(a[1..]);
      var n := UntilClose(a[1..]);
      var c := TitleFound(a[2+n..]);
      assert a == "[" + (a[1..1+n] + "]" + a[2+n..]);
      assert ThemeShape(s, h.theme, h.title, b, c);
    }
    if h.id == id && h.date == date && exists b, c :: ThemeShape(s, h.theme, h.title, b, c) {
      var b, c :| ThemeShape(s, h.theme, h.title, b, c);
      ShapedTheme(s, id, date, h, b, c);
    }
  }

  lemma ShapedTheme(s: string, id: string, date: string, h: Heading, b: string, c: string)
    requires h.id == id && h.date == date && ThemeShape(s, h.theme, h.title, b, c)
    ensures MatchTheme(s, id, date) == Some(h)
  {
    var a := "[" + (h.theme + "]" + (c + h.title));
    BlanksThen(b, a);
    assert |LStrip(s)| < |s|;
    assert a[1..] == h.theme + "]" + (c + h.title);
    ThemeThen(h.theme, c + h.title);
    assert a[1..1+|h.theme|] == h.theme && a[2+|h.theme|..] == c + h.title;
    TitleShape(c + h.title, h.title, c);
  }

  lemma DateMatches(s: string, id: string, h: Heading)
    ensures MatchDate(s, id) == Some(h) <==>
              exists b, themed :: DateShape(s, h.date, themed, b) && MatchTheme(themed, id, h.date) == Some(h)
  {
    if MatchDate(s, id) == Some(h) {
      var a := LStrip(s);
      var b := LStripSplits(s);
      ThemeMatches(a[10..], id, a[..10], h);
      assert a == a[..10] + a[10..];
      assert DateShape(s, h.date, a[10..], b);
    }
    if exists b, themed :: DateShape(s, h.date, themed, b) && MatchTheme(themed, id, h.date) == Some(h) {
      var b, themed :| DateShape(s, h.date, themed, b) && MatchTheme(themed, id, h.date) == Some(h);
      BlanksThen(b, h.date + themed);
      assert |LStrip(s)| < |s|;
      assert (h.date + themed)[..10] == h.date && (h.date + themed)[10..] == themed;
      assert forall k :: 0 <= k < 10 ==> (h.date + themed)[k] == h.date[k];
    }
  }

  lemma IdMatches(s: string, h: Heading)
    ensures MatchId(s) == Some(h) <==>
              exists b, dated :: IdShape(s, h.id, dated, b) && MatchDate(dated, h.id) == Some(h)
  {
    if MatchId(s) == Some(h) {
      var b, dated := MatchedId(s, h);
      assert IdShape(s, h.id, dated, b);
    }
    if exists b, dated :: IdShape(s, h.id, dated, b) && MatchDate(dated, h.id) == Some(h) {
      var b, dated :| IdShape(s, h.id, dated, b) && MatchDate(dated, h.id) == Some(h);
      ShapedId(s, h, b, dated);
    }
  }

  lemma MatchedId(s: string, h: Heading) returns (b: string, dated: string)
    requires MatchId(s) == Some(h)
    ensures IdShape(s, h.id, dated, b) && MatchDate(dated, h.id) == Some(h)
  {
    var a := LStrip(s);
    b := LStripSplits(s);
    DigitsAreDigits(a[1..]);
    var d := DigitCount(a[1..]);
    dated := a[2+d..];
    IdOfDate(dated, a[..1+d], h);
    assert a == a[..1+d] + (":" + dated);
  }

  lemma ShapedId(s: string, h: Heading, b: string, dated: string)
    requires IdShape(s, h.id, dated, b) && MatchDate(dated, h.id) == Some(h)
    ensures MatchId(s) == Some(h)
  {
    var a := h.id + (":" + dated);
    BlanksThen(b, a);
    assert |LStrip(s)| < |s|;
    assert a[1..] == h.id[1..] + (":" + dated);
    DigitsThen(h.id[1..], ":" + dated);
    assert a[..|h.id|] == h.id && a[|h.id|+1..] == dated;
  }

  lemma IdOfDate(s: string, id: string, h: Heading)
    requires MatchDate(s, id) == Some(h)
    ensures h.id == id
  {
  }

  /** A line is matched as a heading, and as which, exactly when it has the shape. */
  lemma {:induction false} MatchIff(line: string, h: Heading)
    ensures MatchHeading(line) == Some(h) <==> HeadingShape(line, h)
  {
    if "###" <= line {
      IdMatches(line[3..], h);
      if MatchId(line[3..]) == Some(h) {
        var b1, dated :| IdShape(line[3..], h.id, dated, b1) && MatchDate(dated, h.id) == Some(h);
        DateMatches(dated, h.id, h);
        var b2, themed :| DateShape(dated, h.date, themed, b2) && MatchTheme(themed, h.id, h.date) == Some(h);
        ThemeMatches(themed, h.id, h.date, h);
        var b3, b4 :| ThemeShape(themed, h.theme, h.title, b3, b4);
        assert HeadingShape(line, h);
      }
      if HeadingShape(line, h) {
        var b1, b2, b3, b4, dated, themed :|
          && IdShape(line[3..], h.id, dated, b1) && DateShape(dated, h.date, themed, b2)
          && ThemeShape(themed, h.theme, h.title, b3, b4);
        ThemeMatches(themed, h.id, h.date, h);
        DateMatches(dated, h.id, h);
      }
    }
  }

  // ----- a matched title ends the line -----

  predicate EndsWith(s: string, t: string) {
    |t| <= |s| && s[|s|-|t|..] == t
  }

  lemma DropEndsWith(s: string, n: nat, t: string)
    requires n <= |s| && EndsWith(s[n..], t)
    ensures EndsWith(s, t)
  {
  }

  lemma {:induction false} LStripEnds(s: string, t: string)
    requires EndsWith(LStrip(s), t)
    ensures EndsWith(s, t)
  {
    if s != [] && IsSpace(s[0]) {
      LStripEnds(s[1..], t);
      DropEndsWith(s, 1, t);
    }
  }

  lemma TitleEndsRest(rest: string)
    ensures EndsWith(rest, TitleOf(rest))
  {
    var t := LStrip(rest);
    if t != [] {
      assert EndsWith(t, t);
      LStripEnds(rest, t);
    } else if |rest| >= 2 {
      assert rest[|rest|-1..] == [rest[|rest|-1]];
    }
  }

  lemma TitleEndsLine(line: string)
    requires MatchHeading(line).Some?
    ensures var title := MatchHeading(line).value.title; title != [] && EndsWith(line, title)
  {
    var title := MatchHeading(line).value.title;
    var a := LStrip(line[3..]);
    CountsInRange(a[1..]);
    var d := DigitCount(a[1..]);
    var b := LStrip(a[2+d..]);
    var c := LStrip(b[10..]);
    CountsInRange(c[1..]);
    var n := UntilClose(c[1..]);
    TitleEndsRest(c[2+n..]);
    DropEndsWith(c, 2 + n, title);
    LStripEnds(b[10..], title);
    DropEndsWith(b, 10, title);
    LStripEnds(a[2+d..], title);
    DropEndsWith(a, 2 + d, title);
    LStripEnds(line[3..], title);
    DropEndsWith(line, 3, title);
  }

  lemma {:induction false} CountsAppend(s: string, t: string)
    ensures DigitCount(s) < |s| ==> DigitCount(s + t) == DigitCount(s)
    ensures UntilClose(s) < |s| ==> UntilClose(s + t) == UntilClose(s)
  {
    if s != [] {
      assert (s + t)[1..] == s[1..] + t;
      CountsAppend(s[1..], t);
    }
  }

  lemma LStripAppend(s: string, w: string)
    requires Blank(w) && LStrip(s) != []
    ensures LStrip(s + w) == LStrip(s) + w
  {
    LStripBlank(s, w);
    LStripBlank(s, []);
    assert s + [] == s;
  }

  lemma TitleAppend(rest: string, w: string)
    requires Blank(w) && TitleOf(rest) != []
    ensures TitleOf(rest + w) != []
  {
    LStripBlank(rest, w);
    LStripBlank(rest, []);
    assert rest + [] == rest;
    if LStrip(rest) != [] {
      LStripAppend(rest, w);
      LStripShortens(rest);
    }
  }

  lemma ThemeAppend(s: string, id: string, date: string, w: string)
    requires Blank(w) && MatchTheme(s, id, date).Some?
    ensures MatchTheme(s + w, id, date).Some?
  {
    var a := LStrip(s);
    LStripAppend(s, w);
    LStripShortens(s);
    CountsInRange(a[1..]);
    CountsAppend(a[1..], w);
    var n := UntilClose(a[1..]);
    assert (a + w)[1..] == a[1..] + w && (a + w)[2+n..] == a[2+n..] + w;
    TitleAppend(a[2+n..], w);
    assert a != s;
    assert |a| < |s| by { StripIsShorter(s); }
  }

  lemma StripIsShorter(s: string)
    ensures LStrip(s) != s ==> |LStrip(s)| < |s|
  {
    LStripShortens(s);
  }

  lemma DateAppend(s: string, id: string, w: string)
    requires Blank(w) && MatchDate(s, id).Some?
    ensures MatchDate(s + w, id).Some?
  {
    var a := LStrip(s);
    LStripAppend(s, w);
    StripIsShorter(s);
    assert forall k :: 0 <= k < 10 ==> (a + w)[k] == a[k];
    assert (a + w)[..10] == a[..10] && (a + w)[10..] == a[10..] + w;
    ThemeAppend(a[10..], id, a[..10], w);
  }

  lemma IdAppend(s: string, w: string)
    requires Blank(w) && MatchId(s).Some?
    ensures MatchId(s + w).Some?
  {
    var a := LStrip(s);
    LStripAppend(s, w);
    StripIsShorter(s);
    CountsInRange(a[1..]);
    CountsAppend(a[1..], w);
    var d := DigitCount(a[1..]);
    assert (a + w)[1..] == a[1..] + w && (a + w)[..1+d] == a[..1+d] && (a + w)[2+d..] == a[2+d..] + w;
    DateAppend(a[2+d..], a[..1+d], w);
  }

  lemma ShorterHeadingNeedsLonger(line: string, w: string)
    requires Blank(w) && MatchHeading(line).Some?
    ensures MatchHeading(line + w).Some?
  {
    assert (line + w)[3..] == line[3..] + w && (line + w)[..3] == line[..3];
    IdAppend(line[3..], w);
  }

  /** Blanks after a line change what it matches exactly when there are some and the longer line is a heading. */
  lemma {:induction false} TrailingBlanksMatter(line: string, w: string)
    requires Blank(w) && (line != [] ==> !IsSpace(line[|line|-1]))
    ensures MatchHeading(line + w) != MatchHeading(line) <==> w != [] && MatchHeading(line + w).Some?
  {
    if w == [] {
      assert line + w == line;
    } else if MatchHeading(line + w).Some? {
      LongerIsAnother(line, w);
    } else if MatchHeading(line).Some? {
      ShorterHeadingNeedsLonger(line, w);
    }
  }

  /** The last character of a title is that of its line. */
  lemma TitleEnd(line: string)
    requires MatchHeading(line).Some?
    ensures var title := MatchHeading(line).value.title;
            title != [] && line != [] && title[|title|-1] == line[|line|-1]
  {
    TitleEndsLine(line);
    LastOfSuffix(line, MatchHeading(line).value.title);
  }

  lemma LastOfSuffix(s: string, t: string)
    requires t != [] && EndsWith(s, t)
    ensures s != [] && t[|t|-1] == s[|s|-1]
  {
  }

  lemma LongerIsAnother(line: string, w: string)
    requires w != [] && Blank(w) && MatchHeading(line + w).Some? && (line != [] ==> !IsSpace(line[|line|-1]))
    ensures MatchHeading(line + w) != MatchHeading(line)
  {
    TitleEnd(line + w);
    assert (line + w)[|line + w|-1] == w[|w|-1];
    if MatchHeading(line).Some? {
      TitleEnd(line);
    }
  }

  // ----- numbers -----

  function DigitValue(c: char): nat {
    if IsDigit(c) then c as int - '0' as int else 0
  }

  /** Python's `int` on a string of digits. */
  function ToNumber(ds: string): nat {
    if ds == [] then 0 else 10 * ToNumber(ds[..|ds|-1]) + DigitValue(ds[|ds|-1])
  }

  function Digit(n: nat): char
    requires n < 10
  {
    ('0' as int + n) as char
  }

  function Decimal(n: nat): string {
    if n < 10 then [Digit(n)] else Decimal(n / 10) + [Digit(n % 10)]
  }

  /** The format `03d`. */
  function Pad3(n: nat): string {
    var ds := Decimal(n);
    if |ds| == 1 then "00" + ds else if |ds| == 2 then "0" + ds else ds
  }

  predicate AllDigits(s: string) {
    forall k :: 0 <= k < |s| ==> IsDigit(s[k])
  }

  lemma DecimalDigits(n: nat)
    ensures AllDigits(Decimal(n)) && |Decimal(n)| >= 1
  {
  }

  lemma PaddedDigits(n: nat)
    ensures AllDigits(Pad3(n)) && |Pad3(n)| >= 1
  {
    DecimalDigits(n);
  }

  lemma ToNumberSnoc(ds: string, c: char)
    ensures ToNumber(ds + [c]) == 10 * ToNumber(ds) + DigitValue(c)
  {
    assert (ds + [c])[..|ds|] == ds;
  }

  lemma {:induction false} DecimalReadsBack(n: nat)
    ensures ToNumber(Decimal(n)) == n
  {
    if n < 10 {
      ToNumberSnoc("", Digit(n));
      assert "" + [Digit(n)] == Decimal(n);
    } else {
      DecimalReadsBack(n / 10);
      ToNumberSnoc(Decimal(n / 10), Digit(n % 10));
    }
  }

  lemma {:induction false} LeadingZero(ds: string)
    ensures ToNumber("0" + ds) == ToNumber(ds)
  {
    if ds == [] {
      ToNumberSnoc("", '0');
      assert "" + ['0'] == "0" + ds;
    } else {
      var front, c := ds[..|ds|-1], ds[|ds|-1];
      assert "0" + ds == ("0" + front) + [c];
      ToNumberSnoc("0" + front, c);
      LeadingZero(front);
    }
  }

  /** Formatting a number into an id and reading it from there is the identity, padding included. */
  lemma {:induction false} PaddedReadsBack(n: nat)
    ensures ToNumber(Pad3(n)) == n
  {
    DecimalReadsBack(n);
    var ds := Decimal(n);
    LeadingZero(ds);
    if |ds| == 1 {
      LeadingZero("0" + ds);
      assert "0" + ("0" + ds) == "00" + ds;
    }
  }

  lemma {:induction false} NoLeadingZero(n: nat)
    ensures n >= 10 ==> |Decimal(n)| >= 2 && Decimal(n)[0] != '0'
    ensures n < 10 ==> |Decimal(n)| == 1
    ensures n > 0 ==> Decimal(n)[0] != '0'
  {
    if n >= 10 { NoLeadingZero(n / 10); }
  }

  /** Ids have at least three digits, and more only if they are needed. */
  lemma PaddedToThree(n: nat)
    ensures |Pad3(n)| >= 3 && AllDigits(Pad3(n)) && (|Pad3(n)| > 3 ==> Pad3(n)[0] != '0')
  {
    DecimalDigits(n);
    NoLeadingZero(n);
  }

  lemma {:induction false} DigitsAreDigits(s: string)
    ensures DigitCount(s) <= |s| && forall k :: 0 <= k < DigitCount(s) ==> IsDigit(s[k])
  {
    if s != [] && IsDigit(s[0]) {
      DigitsAreDigits(s[1..]);
    }
  }

  lemma MatchedIdIsId(line: string)
    requires MatchHeading(line).Some?
    ensures IsId(MatchHeading(line).value.id)
  {
    var a := LStrip(line[3..]);
    DigitsAreDigits(a[1..]);
  }
}
