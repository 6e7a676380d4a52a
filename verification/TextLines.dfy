/** Blanks, `strip`, `split`, `join` and the last component of a path, on strings as sequences of characters. Blanks are
    the ASCII ones. Splitting at newlines and joining undo each other. */
module TextLines {

  // ----- characters and blanks -----

  predicate IsSpace(c: char) {
    c == ' ' || 9 as char <= c <= 13 as char || 28 as char <= c <= 31 as char
  }

  predicate Blank(s: string) {
    forall k :: 0 <= k < |s| ==> IsSpace(s[k])
  }

  function LStrip(s: string): string {
    if s != [] && IsSpace(s[0]) then LStrip(s[1..]) else s
  }

  function RStrip(s: string): string {
    if s != [] && IsSpace(s[|s|-1]) then RStrip(s[..|s|-1]) else s
  }

  function Strip(s: string): string {
    RStrip(LStrip(s))
  }

  lemma {:induction false} RStripSplits(s: string)
    ensures RStrip(s) <= s && Blank(s[|RStrip(s)|..])
    ensures RStrip(s) != [] ==> !IsSpace(RStrip(s)[|RStrip(s)|-1])
  {
    if s != [] && IsSpace(s[|s|-1]) {
      var front := s[..|s|-1];
      RStripSplits(front);
      var n := |RStrip(front)|;
      assert s[n..] == front[n..] + [s[|s|-1]];
    }
  }

  lemma {:induction false} RStripBlank(s: string, w: string)
    requires Blank(w)
    ensures RStrip(s + w) == RStrip(s)
  {
    if w == [] {
      assert s + w == s;
    } else {
      assert (s + w)[..|s + w|-1] == s + w[..|w|-1];
      RStripBlank(s, w[..|w|-1]);
    }
  }

  lemma {:induction false} LStripBlank(s: string, w: string)
    requires Blank(w)
    ensures if Blank(s) then LStrip(s + w) == [] else LStrip(s + w) == LStrip(s) + w
  {
    if s == [] {
      assert s + w == w;
      if w != [] {
        LStripBlank(s, w[1..]);
        assert [] + w[1..] == w[1..];
      }
    } else {
      assert (s + w)[1..] == s[1..] + w;
      if IsSpace(s[0]) {
        LStripBlank(s[1..], w);
        assert Blank(s) <==> Blank(s[1..]);
      }
    }
  }

  /** Blanks at the end do not change what `strip` gives. */
  lemma {:induction false} StripBlank(s: string, w: string)
    requires Blank(w)
    ensures Strip(s + w) == Strip(s)
  {
    LStripBlank(s, w);
    LStripBlank(s, []);
    assert s + [] == s;
    if !Blank(s) {
      RStripBlank(LStrip(s), w);
    }
  }

  // ----- the last component of a path -----

  function AfterLastSlash(s: string): string {
    if s == [] || s[|s|-1] == '/' then [] else AfterLastSlash(s[..|s|-1]) + [s[|s|-1]]
  }

  /** The name is the whole path, or what follows one of its slashes; and it has no slash. */
  predicate Cut(path: string, front: string, name: string) {
    path == front + name && '/' !in name && (front == [] || front[|front|-1] == '/')
  }

  ghost predicate EndsInName(path: string, name: string) {
    exists front :: Cut(path, front, name)
  }

  lemma {:induction false} AfterLastSlashCuts(s: string) returns (front: string)
    ensures Cut(s, front, AfterLastSlash(s))
  {
    front := s;
    if s != [] && s[|s|-1] != '/' {
      front := AfterLastSlashCuts(s[..|s|-1]);
      var name := AfterLastSlash(s[..|s|-1]);
      assert front + (name + [s[|s|-1]]) == (front + name) + [s[|s|-1]] == s;
    }
  }

  lemma AfterLastSlashIsSuffix(s: string)
    ensures |AfterLastSlash(s)| <= |s| && AfterLastSlash(s) == s[|s|-|AfterLastSlash(s)|..]
    ensures '/' !in AfterLastSlash(s) && ('/' !in s ==> AfterLastSlash(s) == s)
  {
    var front := AfterLastSlashCuts(s);
    assert front != [] ==> s[|front|-1] == '/';
  }

  lemma LongerFrontIsInName(path: string, front: string, name: string, longer: string)
    requires path == front + name && longer <= path && |front| < |longer| && longer[|longer|-1] == '/'
    ensures '/' in name
  {
    assert path[|longer|-1] == '/';
    assert name[|longer|-1-|front|] == '/';
  }

  lemma OneCut(path: string, f: string, a: string, g: string, b: string)
    requires Cut(path, f, a) && Cut(path, g, b)
    ensures a == b
  {
    if |f| < |g| {
      LongerFrontIsInName(path, f, a, g);
    } else if |g| < |f| {
      LongerFrontIsInName(path, g, b, f);
    } else {
      assert path[|f|..] == a && path[|g|..] == b;
    }
  }

  lemma AfterLastSlashIff(path: string, name: string)
    ensures AfterLastSlash(path) == name <==> EndsInName(path, name)
  {
    var front := AfterLastSlashCuts(path);
    if EndsInName(path, name) {
      var other :| Cut(path, other, name);
      OneCut(path, front, AfterLastSlash(path), other, name);
    }
  }

  // ----- lines -----

  function Split(s: string): (lines: seq<string>)
    ensures lines != []
  {
    if s == [] then [[]]
    else if s[0] == '\n' then [[]] + Split(s[1..])
    else OntoFirst(s[0], Split(s[1..]))
  }

  function OntoFirst(c: char, lines: seq<string>): seq<string>
    requires lines != []
  {
    [[c] + lines[0]] + lines[1..]
  }

  function Join(lines: seq<string>): string {
    if lines == [] then []
    else if |lines| == 1 then lines[0]
    else lines[0] + "\n" + Join(lines[1..])
  }

  function Front(lines: seq<string>): seq<string>
    requires lines != []
  {
    lines[..|lines|-1]
  }

  function Last(lines: seq<string>): string
    requires lines != []
  {
    lines[|lines|-1]
  }

  /** Two line lists, the last line of the first running on into the first line of the second. */
  function Glue(a: seq<string>, b: seq<string>): (r: seq<string>)
    requires a != [] && b != []
    ensures r != []
  {
    Front(a) + [Last(a) + b[0]] + b[1..]
  }

  lemma GlueOntoFirst(c: char, a: seq<string>, b: seq<string>)
    requires a != [] && b != []
    ensures Glue(OntoFirst(c, a), b) == OntoFirst(c, Glue(a, b))
  {
    if |a| == 1 {
      assert Glue(a, b) == [a[0] + b[0]] + b[1..];
      assert ([c] + a[0]) + b[0] == [c] + (a[0] + b[0]);
    } else {
      assert Front(OntoFirst(c, a)) == OntoFirst(c, Front(a));
      assert Last(OntoFirst(c, a)) == Last(a);
      assert Glue(a, b)[0] == a[0];
      assert Glue(a, b)[1..] == Front(a)[1..] + [Last(a) + b[0]] + b[1..];
    }
  }

  lemma GlueAfterNewline(a: seq<string>, b: seq<string>)
    requires a != [] && b != []
    ensures Glue([[]] + a, b) == [[]] + Glue(a, b)
  {
    assert Front([[]] + a) == [[]] + Front(a);
  }

  lemma {:induction false} SplitConcat(a: string, b: string)
    ensures Split(a + b) == Glue(Split(a), Split(b))
  {
    if a == [] {
      assert a + b == b;
      assert [] + Split(b)[0] == Split(b)[0];
      assert Split(b) == [Split(b)[0]] + Split(b)[1..];
    } else {
      assert (a + b)[1..] == a[1..] + b;
      SplitConcat(a[1..], b);
      if a[0] == '\n' {
        GlueAfterNewline(Split(a[1..]), Split(b));
      } else {
        GlueOntoFirst(a[0], Split(a[1..]), Split(b));
      }
    }
  }

  lemma {:induction false} SplitBlank(w: string)
    requires Blank(w)
    ensures forall line :: line in Split(w) ==> Blank(line)
  {
    if w != [] {
      SplitBlank(w[1..]);
      var rest := Split(w[1..]);
      assert rest[0] in rest;
      forall line | line in Split(w) ensures Blank(line) {
        if line in rest[1..] { assert line in rest; }
      }
    }
  }

  lemma {:induction false} JoinSplit(s: string)
    ensures Join(Split(s)) == s
  {
    if s != [] {
      JoinSplit(s[1..]);
      var rest := Split(s[1..]);
      if s[0] == '\n' {
        assert Split(s)[1..] == rest;
      } else if |rest| > 1 {
        assert Split(s)[1..] == rest[1..];
        assert ([s[0]] + rest[0]) + "\n" + Join(rest[1..]) == [s[0]] + (rest[0] + "\n" + Join(rest[1..]));
      }
    }
  }

  lemma {:induction false} JoinConcat(a: seq<string>, b: seq<string>)
    requires a != [] && b != []
    ensures Join(a + b) == Join(a) + "\n" + Join(b)
  {
    if |a| == 1 {
      assert (a + b)[1..] == b;
    } else {
      assert (a + b)[1..] == a[1..] + b;
      JoinConcat(a[1..], b);
    }
  }

  lemma {:induction false} JoinBlank(lines: seq<string>)
    requires forall line :: line in lines ==> Blank(line)
    ensures Blank(Join(lines))
  {
    if |lines| > 1 {
      JoinBlank(lines[1..]);
      assert lines[0] in lines;
    } else if |lines| == 1 {
      assert lines[0] in lines;
    }
  }

  lemma {:induction false} SplitOneLine(line: string)
    requires '\n' !in line
    ensures Split(line) == [line]
  {
    if line != [] {
      assert line[0] in line && line == [line[0]] + line[1..];
      SplitOneLine(line[1..]);
    }
  }

  lemma SplitAtNewline(a: string, b: string)
    ensures Split(a + ("\n" + b)) == Split(a) + Split(b)
  {
    SplitConcat(a, "\n" + b);
    assert ("\n" + b)[1..] == b;
    assert Split("\n" + b) == [[]] + Split(b);
    assert Last(Split(a)) + [] == Last(Split(a));
    assert Split(a) == Front(Split(a)) + [Last(Split(a))];
  }

  /** A text that does not end in a blank has a last line that does not. */
  lemma LastLineEnd(s: string)
    requires s != [] ==> !IsSpace(s[|s|-1])
    ensures Last(Split(s)) != [] ==> !IsSpace(Last(Split(s))[|Last(Split(s))|-1])
  {
    if s != [] {
      var front, c := s[..|s|-1], s[|s|-1];
      assert s == front + [c];
      SplitConcat(front, [c]);
      SplitOneLine([c]);
      assert Last(Split(s)) == Last(Split(front)) + [c];
    }
  }

  lemma StripOfBlank(w: string)
    requires Blank(w)
    ensures Strip(w) == []
  {
    StripBlank([], w);
    assert [] + w == w;
  }

  /** Blanks at the end of the last line are blanks at the end of the text. */
  lemma {:induction false} JoinLongerLast(lines: seq<string>, x: string, w: string)
    ensures Join(lines + [x + w]) == Join(lines + [x]) + w
  {
    if lines != [] {
      assert (lines + [x + w])[1..] == lines[1..] + [x + w];
      assert (lines + [x])[1..] == lines[1..] + [x];
      JoinLongerLast(lines[1..], x, w);
      assert lines[0] + "\n" + (Join(lines[1..] + [x]) + w) == (lines[0] + "\n" + Join(lines[1..] + [x])) + w;
    }
  }
}
