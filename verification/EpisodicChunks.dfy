/** Sliding windows over the substantive turns of a session transcript, and the anchors of their chunks. */
module EpisodicChunks {
  import TextLines

  const SUBSTANTIVE_LENGTH := 20

  datatype Turn = Turn(role: string, text: string, timestamp: string)

  datatype Transcript = Transcript(sessionId: string, turns: seq<Turn>)

  datatype Chunk = Chunk(sessionId: string, chunkId: nat, text: string, timestamp: string, anchorStart: nat,
                         anchorEnd: nat)

  /** The text functions that the index is built on, whatever they are. */
  datatype Language = Language(clean: string -> string, upper: string -> string, tokenize: string -> seq<string>)

  /** A turn and its position in the transcript. */
  datatype Numbered = Numbered(position: nat, turn: Turn)

  predicate IsSubstantive(turn: Turn, lang: Language) {
    |TextLines.Strip(lang.clean(turn.text))| >= SUBSTANTIVE_LENGTH
  }

  function Substantive(turns: seq<Turn>, lang: Language): seq<Numbered> {
    if turns == [] then [] else
      var n := |turns| - 1;
      Substantive(turns[..n], lang) + if IsSubstantive(turns[n], lang) then [Numbered(n, turns[n])] else []
  }

  /** Exactly the substantive turns, in order, each with its own position. */
  lemma SubstantiveInOrder(turns: seq<Turn>, lang: Language)
    ensures var sub := Substantive(turns, lang);
            && (forall j :: 0 <= j < |sub| ==>
                  sub[j].position < |turns| && sub[j].turn == turns[sub[j].position]
                  && IsSubstantive(sub[j].turn, lang))
            && (forall i, j :: 0 <= i < j < |sub| ==> sub[i].position < sub[j].position)
  {
    if turns != [] { SubstantiveInOrder(turns[..|turns|-1], lang); }
  }

  lemma {:induction false} SubstantiveComplete(turns: seq<Turn>, lang: Language, p: nat) returns (j: nat)
    requires p < |turns| && IsSubstantive(turns[p], lang)
    ensures j < |Substantive(turns, lang)| && Substantive(turns, lang)[j].position == p
  {
    var n := |turns| - 1;
    if p == n {
      j := |Substantive(turns[..n], lang)|;
    } else {
      j := SubstantiveComplete(turns[..n], lang, p);
    }
  }

  // ----- windows: five turns long, one starting at every second turn -----

  function WindowCount(n: nat): nat {
    (n + 1) / 2
  }

  function WindowEnd(n: nat, k: nat): nat {
    if 2 * k + 5 < n then 2 * k + 5 else n
  }

  function Window(sub: seq<Numbered>, k: nat): seq<Numbered>
    requires k < WindowCount(|sub|)
  {
    sub[2 * k..WindowEnd(|sub|, k)]
  }

  function Speech(turn: Turn, lang: Language): string {
    "[" + lang.upper(turn.role) + "]: " + lang.clean(turn.text)
  }

  function WindowText(window: seq<Numbered>, lang: Language): string {
    if window == [] then [] else
      var n := |window| - 1;
      (if n == 0 then [] else WindowText(window[..n], lang) + "\n\n") + Speech(window[n].turn, lang)
  }

  function ChunkOf(sessionId: string, sub: seq<Numbered>, base: nat, k: nat, lang: Language): Chunk
    requires k < WindowCount(|sub|)
  {
    var window := Window(sub, k);
    Chunk(sessionId, base + k, WindowText(window, lang), window[0].turn.timestamp, window[0].position,
          window[|window|-1].position)
  }

  function FirstChunks(sessionId: string, sub: seq<Numbered>, base: nat, k: nat, lang: Language): seq<Chunk>
    requires k <= WindowCount(|sub|)
  {
    if k == 0 then [] else FirstChunks(sessionId, sub, base, k - 1, lang) + [ChunkOf(sessionId, sub, base, k - 1, lang)]
  }

  function ChunksOf(transcript: Transcript, base: nat, lang: Language): seq<Chunk> {
    var sub := Substantive(transcript.turns, lang);
    FirstChunks(transcript.sessionId, sub, base, WindowCount(|sub|), lang)
  }

  lemma {:induction false} FirstChunksAt(sessionId: string, sub: seq<Numbered>, base: nat, k: nat, lang: Language)
    requires k <= WindowCount(|sub|)
    ensures |FirstChunks(sessionId, sub, base, k, lang)| == k
    ensures forall i :: 0 <= i < k ==>
              FirstChunks(sessionId, sub, base, k, lang)[i] == ChunkOf(sessionId, sub, base, i, lang)
  {
    if k > 0 { FirstChunksAt(sessionId, sub, base, k - 1, lang); }
  }

  lemma ChunkAt(transcript: Transcript, base: nat, lang: Language, k: nat)
    requires k < |ChunksOf(transcript, base, lang)|
    ensures var sub := Substantive(transcript.turns, lang);
            && |ChunksOf(transcript, base, lang)| == WindowCount(|sub|)
            && ChunksOf(transcript, base, lang)[k] == ChunkOf(transcript.sessionId, sub, base, k, lang)
  {
    var sub := Substantive(transcript.turns, lang);
    FirstChunksAt(transcript.sessionId, sub, base, WindowCount(|sub|), lang);
  }

  /** Window `k` holds the `m` turns from `j` on. */
  predicate Holds(n: nat, k: nat, j: nat, m: nat) {
    2 * k <= j && j + m <= WindowEnd(n, k)
  }

  predicate SharesWindow(n: nat, j: nat, m: nat) {
    exists k :: 0 <= k < WindowCount(n) && Holds(n, k, j, m)
  }

  /** Any four consecutive substantive turns share a window, and five do exactly when the first has an even number. */
  lemma FourShareAWindow(n: nat, j: nat, m: nat)
    requires m >= 1 && j + m <= n
    ensures SharesWindow(n, j, m) <==> m < 5 || (m == 5 && j % 2 == 0)
  {
    if m < 5 || (m == 5 && j % 2 == 0) {
      assert Holds(n, j / 2, j, m);
    }
  }

  /** Among the substantive turns, those between the anchors of a chunk are those of its window. */
  lemma AnchorsDelimitWindow(transcript: Transcript, base: nat, lang: Language, k: nat, j: nat)
    requires k < |ChunksOf(transcript, base, lang)| && j < |Substantive(transcript.turns, lang)|
    ensures var sub, c := Substantive(transcript.turns, lang), ChunksOf(transcript, base, lang)[k];
            && (c.anchorStart <= sub[j].position <= c.anchorEnd <==> Holds(|sub|, k, j, 1))
            && c.anchorStart <= c.anchorEnd < |transcript.turns|
            && c.sessionId == transcript.sessionId && c.chunkId == base + k
            && c.timestamp == transcript.turns[c.anchorStart].timestamp
  {
    var sub := Substantive(transcript.turns, lang);
    SubstantiveInOrder(transcript.turns, lang);
    ChunkAt(transcript, base, lang, k);
    ChunkAnchors(transcript.sessionId, sub, base, k, lang);
    PositionsBetween(sub, 2 * k, j, WindowEnd(|sub|, k) - 1);
  }

  /** The text of a window says each of its turns, the role in capitals between brackets and the cleaned words, after
      what the turns before it say, with an empty line in between, and ends with the last one. */
  lemma {:induction false} WindowIsSpoken(window: seq<Numbered>, lang: Language, i: nat) returns (rest: string)
    requires i < |window|
    ensures var turn := window[i].turn;
            WindowText(window, lang) ==
            WindowText(window[..i], lang) + (if i == 0 then "" else "\n\n")
            + ("[" + lang.upper(turn.role) + "]: " + lang.clean(turn.text)) + rest
    ensures i == |window| - 1 ==> rest == ""
  {
    var n := |window| - 1;
    if i == n {
      rest := "";
      if n == 0 { assert window[..0] == []; }
    } else {
      var shorter := WindowIsSpoken(window[..n], lang, i);
      assert window[..n][..i] == window[..i] && window[..n][i] == window[i];
      rest := shorter + ("\n\n" + Speech(window[n].turn, lang));
      Longer(WindowText(window[..i], lang) + (if i == 0 then "" else "\n\n") + Speech(window[i].turn, lang), shorter,
             "\n\n", Speech(window[n].turn, lang));
    }
  }

  lemma Longer(a: string, b: string, c: string, d: string)
    ensures a + b + c + d == a + (b + (c + d))
  {
  }

  /** A turn counts from 20 characters of cleaned and trimmed text on. */
  lemma SubstantiveIff(turns: seq<Turn>, lang: Language, p: nat)
    requires p < |turns|
    ensures (exists j :: 0 <= j < |Substantive(turns, lang)| && Substantive(turns, lang)[j].position == p)
            <==> |TextLines.Strip(lang.clean(turns[p].text))| >= 20
  {
    SubstantiveInOrder(turns, lang);
    if IsSubstantive(turns[p], lang) { var j := SubstantiveComplete(turns, lang, p); }
  }

  lemma ChunkAnchors(sessionId: string, sub: seq<Numbered>, base: nat, k: nat, lang: Language)
    requires k < WindowCount(|sub|)
    ensures var c, first, last := ChunkOf(sessionId, sub, base, k, lang), 2 * k, WindowEnd(|sub|, k) - 1;
            && first <= last < |sub| && c.anchorStart == sub[first].position && c.anchorEnd == sub[last].position
            && c.sessionId == sessionId && c.chunkId == base + k
  {
  }

  lemma PositionsBetween(sub: seq<Numbered>, first: nat, j: nat, last: nat)
    requires forall i, j :: 0 <= i < j < |sub| ==> sub[i].position < sub[j].position
    requires first < |sub| && j < |sub| && last < |sub|
    ensures sub[first].position <= sub[j].position <= sub[last].position <==> first <= j <= last
  {
  }

  /** `build_chunks`. */
  method BuildChunks(transcript: Transcript, base: nat, lang: Language) returns (chunks: seq<Chunk>)
    ensures chunks == ChunksOf(transcript, base, lang)
  {
    var indexed := NumberSubstantive(transcript.turns, lang);
    if indexed == [] {
      return [];
    }
    chunks := Slide(transcript.sessionId, indexed, base, lang);
  }

  method NumberSubstantive(turns: seq<Turn>, lang: Language) returns (indexed: seq<Numbered>)
    ensures indexed == Substantive(turns, lang)
  {
    indexed := [];
    for i := 0 to |turns|
      invariant indexed == Substantive(turns[..i], lang)
    {
      assert turns[..i+1][..i] == turns[..i];
      if IsSubstantive(turns[i], lang) {
        indexed := indexed + [Numbered(i, turns[i])];
      }
    }
    assert turns[..|turns|] == turns;
  }

  method Slide(sessionId: string, indexed: seq<Numbered>, base: nat, lang: Language) returns (chunks: seq<Chunk>)
    ensures chunks == FirstChunks(sessionId, indexed, base, WindowCount(|indexed|), lang)
  {
    chunks := [];
    var windowNum, i := 0, 0;
    while i < |indexed|
      invariant i == 2 * windowNum && windowNum <= WindowCount(|indexed|)
      invariant ChunksSoFar(sessionId, indexed, base, lang, chunks, windowNum)
    {
      MoreWindows(|indexed|, windowNum);
      var chunk := MakeChunk(sessionId, indexed, base, windowNum, i, lang);
      OneMoreChunk(sessionId, indexed, base, lang, chunks, windowNum);
      chunks := chunks + [chunk];
      windowNum := windowNum + 1;
      i := i + 2;
    }
    MoreWindows(|indexed|, windowNum);
  }

  ghost predicate ChunksSoFar(sessionId: string, indexed: seq<Numbered>, base: nat, lang: Language, chunks: seq<Chunk>,
                              k: nat)
    requires k <= WindowCount(|indexed|)
  {
    chunks == FirstChunks(sessionId, indexed, base, k, lang)
  }

  lemma OneMoreChunk(sessionId: string, indexed: seq<Numbered>, base: nat, lang: Language, chunks: seq<Chunk>, k: nat)
    requires k < WindowCount(|indexed|) && ChunksSoFar(sessionId, indexed, base, lang, chunks, k)
    ensures ChunksSoFar(sessionId, indexed, base, lang, chunks + [ChunkOf(sessionId, indexed, base, k, lang)], k + 1)
  {
  }

  lemma MoreWindows(n: nat, k: nat)
    ensures 2 * k < n <==> k < WindowCount(n)
  {
  }

  method MakeChunk(sessionId: string, indexed: seq<Numbered>, base: nat, windowNum: nat, i: nat, lang: Language)
    returns (chunk: Chunk)
    requires i == 2 * windowNum && windowNum < WindowCount(|indexed|)
    ensures chunk == ChunkOf(sessionId, indexed, base, windowNum, lang)
  {
    var window := if i + 5 < |indexed| then indexed[i..i + 5] else indexed[i..];
    assert window == Window(indexed, windowNum);
    var text := JoinSpeech(window, lang);
    chunk := Chunk(sessionId, base + windowNum, text, window[0].turn.timestamp, window[0].position,
                   window[|window|-1].position);
  }

  method JoinSpeech(window: seq<Numbered>, lang: Language) returns (text: string)
    ensures text == WindowText(window, lang)
  {
    text := [];
    for i := 0 to |window|
      invariant text == WindowText(window[..i], lang)
    {
      assert window[..i+1][..i] == window[..i];
      text := (if i == 0 then [] else text + "\n\n") + Speech(window[i].turn, lang);
    }
    assert window[..|window|] == window;
  }
}
