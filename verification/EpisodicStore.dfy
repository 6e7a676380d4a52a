/** The stored episodic index: incremental updates, in any order of files, against one batch build of the corpus. */
module EpisodicStore {
  import opened EpisodicChunks
  import opened Options
  import Bm25
  import Names

  type Sessions = map<string, seq<Turn>>

  /** The index file; a missing file reads as `EMPTY`. */
  datatype Raw = Raw(indexed: seq<string>, chunks: seq<Chunk>, docFreqs: map<string, nat>, docLengths: seq<nat>,
                     docs: seq<seq<string>>)

  const EMPTY := Raw([], [], map[], [], [])

  // ----- the batch build -----

  /** All chunks of the sessions, in this order, numbered through. */
  function Batch(sessions: Sessions, order: seq<string>, lang: Language): seq<Chunk>
    requires forall s :: s in order ==> s in sessions
  {
    if order == [] then [] else
      var stem := order[|order|-1];
      assert stem in order;
      var before := Batch(sessions, order[..|order|-1], lang);
      before + ChunksOf(Transcript(stem, sessions[stem]), |before|, lang)
  }

  function RawOf(sessions: Sessions, order: seq<string>, lang: Language): Raw
    requires forall s :: s in order ==> s in sessions
  {
    var index := Bm25.IndexOf(Batch(sessions, order, lang), lang);
    Raw(order, index.chunks, index.docFreqs, index.docLengths, index.docs)
  }

  /** Chunk `i` of the whole corpus has number `i`, and belongs to a session whose turns its anchors point at. */
  lemma {:induction false} BatchIsNumbered(sessions: Sessions, order: seq<string>, lang: Language, i: nat)
    requires forall s :: s in order ==> s in sessions
    requires i < |Batch(sessions, order, lang)|
    ensures var c := Batch(sessions, order, lang)[i];
            && c.chunkId == i && c.sessionId in order
            && c.anchorStart <= c.anchorEnd < |sessions[c.sessionId]|
  {
    var n := |order| - 1;
    var stem := order[n];
    var before := Batch(sessions, order[..n], lang);
    assert stem in order;
    if i < |before| {
      BatchIsNumbered(sessions, order[..n], lang, i);
      assert Batch(sessions, order, lang)[i] == before[i];
    } else {
      var transcript, k := Transcript(stem, sessions[stem]), i - |before|;
      assert Batch(sessions, order, lang)[i] == ChunksOf(transcript, |before|, lang)[k];
      SomeTurn(transcript, |before|, lang, k);
    }
  }

  lemma SomeTurn(transcript: Transcript, base: nat, lang: Language, k: nat)
    requires k < |ChunksOf(transcript, base, lang)|
    ensures var c := ChunksOf(transcript, base, lang)[k];
            && c.anchorStart <= c.anchorEnd < |transcript.turns|
            && c.sessionId == transcript.sessionId && c.chunkId == base + k
  {
    ChunkAt(transcript, base, lang, k);
    AnchorsDelimitWindow(transcript, base, lang, k, 0);
  }

  /** New session files do not change the chunks of the old ones. */
  lemma {:induction false} BatchKeepsUnderGrowth(sessions: Sessions, more: Sessions, order: seq<string>, lang: Language)
    requires forall s :: s in order ==> s in sessions
    requires forall s :: s in sessions ==> s in more && more[s] == sessions[s]
    ensures Batch(more, order, lang) == Batch(sessions, order, lang)
  {
    if order != [] {
      assert order[|order|-1] in order;
      BatchKeepsUnderGrowth(sessions, more, order[..|order|-1], lang);
    }
  }

  lemma {:induction false} BatchExtends(sessions: Sessions, order: seq<string>, added: seq<string>, lang: Language)
    requires forall s :: s in order + added ==> s in sessions
    ensures forall s :: s in order ==> s in sessions
    ensures Batch(sessions, order, lang) <= Batch(sessions, order + added, lang)
  {
    forall s | s in order ensures s in sessions { assert s in order + added; }
    if added == [] {
      assert order + added == order;
    } else {
      var n := |added| - 1;
      var most := order + added[..n];
      assert order + added == most + [added[n]];
      forall s | s in most ensures s in sessions { assert s in order + added; }
      BatchExtends(sessions, order, added[..n], lang);
      BatchSnoc(sessions, most, added[n], lang);
    }
  }

  lemma BatchSnoc(sessions: Sessions, order: seq<string>, stem: string, lang: Language)
    requires (forall s :: s in order ==> s in sessions) && stem in sessions
    ensures forall s :: s in order + [stem] ==> s in sessions
    ensures var before := Batch(sessions, order, lang);
            Batch(sessions, order + [stem], lang) == before + ChunksOf(Transcript(stem, sessions[stem]), |before|, lang)
  {
    assert (order + [stem])[..|order|] == order;
  }

  // ----- runs -----

  datatype World = World(sessions: Sessions, raw: Raw)

  /** Session files are added, never changed. */
  ghost predicate Grows(w: World, w': World) {
    w'.raw == w.raw && forall s :: s in w.sessions ==> s in w'.sessions && w'.sessions[s] == w.sessions[s]
  }

  ghost predicate Valid(w: World, lang: Language) {
    && Names.NoDuplicates(w.raw.indexed) && (forall s :: s in w.raw.indexed ==> s in w.sessions)
    && w.raw == RawOf(w.sessions, w.raw.indexed, lang)
  }

  /** An update indexes the sessions that are not indexed yet, in some order, after those that are. */
  ghost predicate Updates(w: World, w': World, added: seq<string>, lang: Language) {
    && w'.sessions == w.sessions && w'.raw.indexed == w.raw.indexed + added
    && (forall s :: s in w'.raw.indexed <==> s in w.sessions) && Names.NoDuplicates(w'.raw.indexed)
    && w'.raw == RawOf(w.sessions, w'.raw.indexed, lang)
  }

  ghost predicate Step(w: World, w': World, lang: Language) {
    Grows(w, w') || exists added :: Updates(w, w', added, lang)
  }

  /** A step keeps the stored index equal to a batch build, and the chunks that are there. */
  lemma {:induction false} StepKeepsValid(w: World, w': World, lang: Language)
    requires Valid(w, lang) && Step(w, w', lang)
    ensures Valid(w', lang) && w.raw.indexed <= w'.raw.indexed && w.raw.chunks <= w'.raw.chunks
  {
    if Grows(w, w') {
      BatchKeepsUnderGrowth(w.sessions, w'.sessions, w.raw.indexed, lang);
    } else {
      var added :| Updates(w, w', added, lang);
      BatchExtends(w.sessions, w.raw.indexed, added, lang);
    }
  }

  ghost predicate Run(ws: seq<World>, lang: Language) {
    ws != [] && ws[0].raw == EMPTY && forall i :: 0 <= i < |ws| - 1 ==> Step(ws[i], ws[i+1], lang)
  }

  /** After any run from an empty index, the stored index is the batch build over its sessions; earlier chunks have
      never changed, and every chunk's number is its position. */
  lemma {:induction false} RunIsBatch(ws: seq<World>, lang: Language, i: nat, n: nat)
    requires Run(ws, lang) && i <= n < |ws|
    ensures Valid(ws[n], lang) && ws[i].raw.chunks <= ws[n].raw.chunks
    ensures forall k :: 0 <= k < |ws[n].raw.chunks| ==> ws[n].raw.chunks[k].chunkId == k
  {
    RunKeepsValid(ws, lang, n);
    RunKeepsChunks(ws, lang, i, n);
    forall k | 0 <= k < |ws[n].raw.chunks| ensures ws[n].raw.chunks[k].chunkId == k {
      BatchIsNumbered(ws[n].sessions, ws[n].raw.indexed, lang, k);
    }
  }

  lemma {:induction false} RunKeepsValid(ws: seq<World>, lang: Language, n: nat)
    requires Run(ws, lang) && n < |ws|
    ensures Valid(ws[n], lang)
  {
    if n == 0 {
      EmptyIsValid(ws[0].sessions, lang);
    } else {
      RunKeepsValid(ws, lang, n - 1);
      assert Step(ws[n-1], ws[n-1+1], lang);
      StepKeepsValid(ws[n-1], ws[n], lang);
    }
  }

  lemma {:induction false} RunKeepsChunks(ws: seq<World>, lang: Language, i: nat, n: nat)
    requires Run(ws, lang) && i <= n < |ws|
    ensures ws[i].raw.chunks <= ws[n].raw.chunks
  {
    if i < n {
      RunKeepsChunks(ws, lang, i, n - 1);
      StepOfRun(ws, lang, n);
      PrefixThrough(ws[i].raw.chunks, ws[n-1].raw.chunks, ws[n].raw.chunks);
    }
  }

  lemma PrefixThrough(a: seq<Chunk>, b: seq<Chunk>, c: seq<Chunk>)
    requires a <= b <= c
    ensures a <= c
  {
  }

  lemma StepOfRun(ws: seq<World>, lang: Language, n: nat)
    requires Run(ws, lang) && 0 < n < |ws|
    ensures ws[n-1].raw.chunks <= ws[n].raw.chunks
  {
    RunKeepsValid(ws, lang, n - 1);
    assert Step(ws[n-1], ws[n-1+1], lang);
    StepKeepsValid(ws[n-1], ws[n], lang);
  }

  lemma EmptyIsValid(sessions: Sessions, lang: Language)
    ensures Valid(World(sessions, EMPTY), lang)
  {
    assert Batch(sessions, [], lang) == [];
  }

  // ----- the operations -----

  lemma AllIndexed(sessions: Sessions, raw: Raw, lang: Language)
    requires Valid(World(sessions, raw), lang) && forall s :: s in sessions ==> s in raw.indexed
    ensures Updates(World(sessions, raw), World(sessions, raw), [], lang)
  {
    assert raw.indexed + [] == raw.indexed;
  }

  /** The session files that are not indexed, in the arbitrary order of the directory. */
  method ListNew(sessions: Sessions, indexed: seq<string>) returns (stems: seq<string>)
    requires Names.NoDuplicates(indexed)
    ensures forall s :: s in stems <==> s in sessions && s !in indexed
    ensures Names.NoDuplicates(indexed + stems)
  {
    stems := [];
    var todo := sessions.Keys;
    assert indexed + [] == indexed;
    while todo != {}
      invariant todo <= sessions.Keys
      invariant forall s :: s in stems <==> s in sessions.Keys - todo && s !in indexed
      invariant Names.NoDuplicates(indexed + stems)
      decreases todo
    {
      var s :| s in todo;
      if s !in indexed {
        assert indexed + (stems + [s]) == (indexed + stems) + [s];
        stems := stems + [s];
      }
      todo := todo - {s};
    }
  }

  /** The chunks that are stored, and after them those of the new sessions. */
  method ChunkNew(sessions: Sessions, indexed: seq<string>, stored: seq<Chunk>, stems: seq<string>, lang: Language)
    returns (chunks: seq<Chunk>)
    requires forall s :: s in indexed + stems ==> s in sessions
    requires (forall s :: s in indexed ==> s in sessions) && stored == Batch(sessions, indexed, lang)
    ensures chunks == Batch(sessions, indexed + stems, lang)
  {
    chunks := stored;
    assert indexed + stems[..0] == indexed;
    for i := 0 to |stems|
      invariant Chunked(sessions, indexed + stems[..i], chunks, lang)
    {
      NextSession(sessions, indexed, stems, i, chunks, lang);
      var more := BuildChunks(Transcript(stems[i], sessions[stems[i]]), |chunks|, lang);
      chunks := chunks + more;
    }
    assert stems[..|stems|] == stems;
  }

  lemma NextSession(sessions: Sessions, indexed: seq<string>, stems: seq<string>, i: nat, chunks: seq<Chunk>,
                    lang: Language)
    requires i < |stems| && Chunked(sessions, indexed + stems[..i], chunks, lang)
    requires forall s :: s in indexed + stems ==> s in sessions
    ensures stems[i] in sessions
    ensures Chunked(sessions, indexed + stems[..i+1],
                    chunks + ChunksOf(Transcript(stems[i], sessions[stems[i]]), |chunks|, lang), lang)
  {
    OneLonger(indexed, stems, i);
    OneMoreSession(sessions, indexed + stems[..i], chunks, stems[i], lang);
  }

  lemma OneLonger(indexed: seq<string>, stems: seq<string>, i: nat)
    requires i < |stems|
    ensures indexed + stems[..i+1] == (indexed + stems[..i]) + [stems[i]] && stems[i] in indexed + stems
  {
  }

  ghost predicate Chunked(sessions: Sessions, order: seq<string>, chunks: seq<Chunk>, lang: Language) {
    (forall s :: s in order ==> s in sessions) && chunks == Batch(sessions, order, lang)
  }

  lemma OneMoreSession(sessions: Sessions, order: seq<string>, chunks: seq<Chunk>, stem: string, lang: Language)
    requires Chunked(sessions, order, chunks, lang) && stem in sessions
    ensures Chunked(sessions, order + [stem], chunks + ChunksOf(Transcript(stem, sessions[stem]), |chunks|, lang), lang)
  {
    BatchSnoc(sessions, order, stem, lang);
  }

  /** The loop of `expand` that looks for the hit. */
  method FindChunk(chunks: seq<Chunk>, sessionId: string, chunkId: nat) returns (found: Option<Chunk>)
    ensures found.Some? ==>
              found.value in chunks && found.value.sessionId == sessionId && found.value.chunkId == chunkId
    ensures found.None? ==> forall c :: c in chunks ==> !(c.sessionId == sessionId && c.chunkId == chunkId)
  {
    for i := 0 to |chunks|
      invariant forall c :: c in chunks[..i] ==> !(c.sessionId == sessionId && c.chunkId == chunkId)
    {
      if chunks[i].sessionId == sessionId && chunks[i].chunkId == chunkId {
        return Some(chunks[i]);
      }
    }
    assert chunks[..|chunks|] == chunks;
    found := None;
  }

  /** What a search hit names can be expanded: no other chunk answers to its session and number, its session is there,
      and its anchors are turns of it. */
  lemma {:induction false} HitsExpand(w: World, lang: Language, hit: Chunk, found: Chunk)
    requires Valid(w, lang) && hit in w.raw.chunks && found in w.raw.chunks
    requires found.sessionId == hit.sessionId && found.chunkId == hit.chunkId
    ensures found == hit && hit.sessionId in w.sessions
    ensures hit.anchorStart <= hit.anchorEnd < |w.sessions[hit.sessionId]|
  {
    var i :| 0 <= i < |w.raw.chunks| && w.raw.chunks[i] == hit;
    var j :| 0 <= j < |w.raw.chunks| && w.raw.chunks[j] == found;
    BatchIsNumbered(w.sessions, w.raw.indexed, lang, i);
    BatchIsNumbered(w.sessions, w.raw.indexed, lang, j);
  }

  predicate Named(c: Chunk, sessionId: string, chunkId: nat) {
    c.sessionId == sessionId && c.chunkId == chunkId
  }

  /** The turns `from` up to `to` of the hit's session, the hit among them. */
  datatype Context = Context(hit: Chunk, from: int, to: int)

  class EpisodicStore {
    var sessions: Option<Sessions>
    var raw: Raw

    constructor (sessions: Option<Sessions>)
      ensures this.sessions == sessions && raw == EMPTY
    {
      this.sessions, raw := sessions, EMPTY;
    }

    /** `build_or_update`. */
    method BuildOrUpdate(lang: Language) returns (ghost added: seq<string>)
      requires sessions.Some? ==> Valid(World(sessions.value, raw), lang)
      modifies this`raw
      ensures sessions.None? ==> raw == old(raw)
      ensures sessions.Some? ==> Updates(World(sessions.value, old(raw)), World(sessions.value, raw), added, lang)
    {
      added := [];
      if sessions.None? {
        return;
      }
      var unseen := ListNew(sessions.value, raw.indexed);
      if unseen == [] {
        AllIndexed(sessions.value, raw, lang);
        return;
      }
      var chunks := ChunkNew(sessions.value, raw.indexed, raw.chunks, unseen, lang);
      var docs, lengths := Bm25.TokenizeAll(chunks, lang);
      var freqs := Bm25.CountTerms(docs);
      added := unseen;
      raw := Raw(raw.indexed + unseen, chunks, freqs, lengths, docs);
    }

    /** `_reconstruct_index`, and the search in what it gives. */
    method Search(query: string, topK: nat, lang: Language, log: real --> real) returns (hits: seq<Bm25.Hit>)
      requires Bm25.IsLog(log) && sessions.Some? && Valid(World(sessions.value, raw), lang)
      ensures var index := Bm25.IndexOf(raw.chunks, lang);
              Bm25.Built(index) && hits == Bm25.Best(Bm25.AllScored(index, lang.tokenize(query), log), topK)
    {
      var sum := Bm25.SumOf(raw.docLengths);
      var index := Bm25.Index(raw.chunks, raw.docFreqs, raw.docLengths,
                              sum as real / (if |raw.docLengths| > 1 then |raw.docLengths| else 1) as real, raw.docs);
      Bm25.IndexIsBuilt(raw.chunks, lang);
      hits := Bm25.Search(index, query, topK, lang, log);
    }

    /** `expand`: there is a context exactly for the session and number of a stored chunk, and it is that chunk's. */
    method Expand(sessionId: string, chunkId: nat, radius: int, lang: Language) returns (shown: Option<Context>)
      requires sessions.Some? ==> Valid(World(sessions.value, raw), lang)
      ensures sessions.None? ==> shown.None?
      ensures sessions.Some? ==> (shown.Some? <==> exists c :: c in raw.chunks && Named(c, sessionId, chunkId))
      ensures sessions.Some? ==>
                forall c :: c in raw.chunks && Named(c, sessionId, chunkId) ==> shown.Some? && shown.value.hit == c
      ensures shown.Some? ==>
        var c := shown.value;
        && sessions.Some? && sessionId in sessions.value && 0 <= c.from && c.to <= |sessions.value[sessionId]|
        && (radius >= 0 ==> c.from <= c.hit.anchorStart <= c.hit.anchorEnd < c.to)
        && (c.from > 0 ==> c.from == c.hit.anchorStart - radius)
        && (c.to < |sessions.value[sessionId]| ==> c.to == c.hit.anchorEnd + radius + 1)
    {
      var found := FindChunk(raw.chunks, sessionId, chunkId);
      if found.None? || sessions.None? || sessionId !in sessions.value {
        if found.Some? && sessions.Some? {
          HitsExpand(World(sessions.value, raw), lang, found.value, found.value);
        }
        return None;
      }
      var hit, turns := found.value, |sessions.value[sessionId]|;
      forall c | c in raw.chunks && Named(c, sessionId, chunkId) ensures c == hit {
        HitsExpand(World(sessions.value, raw), lang, c, hit);
      }
      HitsExpand(World(sessions.value, raw), lang, hit, hit);
      var from := if hit.anchorStart - radius > 0 then hit.anchorStart - radius else 0;
      var to := if hit.anchorEnd + radius + 1 < turns then hit.anchorEnd + radius + 1 else turns;
      shown := Some(Context(hit, from, to));
    }
  }
}
