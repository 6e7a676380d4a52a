/** BM25 over chunks: index, scores and ranking, with real arithmetic and an arbitrary tokenizer. */
module Bm25 {
  import opened EpisodicChunks
  import StableSort

  const K1 := 1.5
  const B := 0.75

  /** All that is asked of `math.log`: it is defined above 0, strictly increasing there, and positive above 1. */
  ghost predicate IsLog(log: real --> real) {
    && (forall x :: x > 0.0 ==> log.requires(x) && (x > 1.0 ==> log(x) > 0.0))
    && (forall x, y :: 0.0 < x < y ==> log(x) < log(y))
  }

  // ----- the index -----

  datatype Index = Index(chunks: seq<Chunk>, docFreqs: map<string, nat>, docLengths: seq<nat>, average: real,
                         docs: seq<seq<string>>)

  function Tokenized(chunks: seq<Chunk>, lang: Language): seq<seq<string>> {
    if chunks == [] then [] else Tokenized(chunks[..|chunks|-1], lang) + [lang.tokenize(chunks[|chunks|-1].text)]
  }

  function Lengths(docs: seq<seq<string>>): seq<nat> {
    if docs == [] then [] else Lengths(docs[..|docs|-1]) + [|docs[|docs|-1]|]
  }

  function Sum(ns: seq<nat>): nat {
    if ns == [] then 0 else Sum(ns[..|ns|-1]) + ns[|ns|-1]
  }

  function Average(lengths: seq<nat>): real {
    Sum(lengths) as real / (if |lengths| > 1 then |lengths| else 1) as real
  }

  /** The number of documents that contain a term. */
  function DocCount(docs: seq<seq<string>>, term: string): nat {
    if docs == [] then 0 else DocCount(docs[..|docs|-1], term) + if term in docs[|docs|-1] then 1 else 0
  }

  function Terms(docs: seq<seq<string>>): set<string> {
    set d, t | d in docs && t in d :: t
  }

  function DocFreqs(docs: seq<seq<string>>): map<string, nat> {
    map t | t in Terms(docs) :: DocCount(docs, t)
  }

  function IndexOf(chunks: seq<Chunk>, lang: Language): Index {
    var docs := Tokenized(chunks, lang);
    Index(chunks, DocFreqs(docs), Lengths(docs), Average(Lengths(docs)), docs)
  }

  lemma {:induction false} TokenizedAt(chunks: seq<Chunk>, lang: Language)
    ensures |Tokenized(chunks, lang)| == |chunks|
    ensures forall i :: 0 <= i < |chunks| ==> Tokenized(chunks, lang)[i] == lang.tokenize(chunks[i].text)
  {
    if chunks != [] { TokenizedAt(chunks[..|chunks|-1], lang); }
  }

  lemma {:induction false} LengthsAt(docs: seq<seq<string>>)
    ensures |Lengths(docs)| == |docs| && forall i :: 0 <= i < |docs| ==> Lengths(docs)[i] == |docs[i]|
  {
    if docs != [] { LengthsAt(docs[..|docs|-1]); }
  }

  lemma {:induction false} CountedIsTerm(docs: seq<seq<string>>, term: string)
    ensures DocCount(docs, term) > 0 <==> term in Terms(docs)
    ensures DocCount(docs, term) <= |docs|
  {
    if docs != [] {
      var n := |docs| - 1;
      CountedIsTerm(docs[..n], term);
      assert docs == docs[..n] + [docs[n]];
      assert docs[n] in docs;
      if term in Terms(docs[..n]) {
        var d :| d in docs[..n] && term in d;
        assert d in docs;
      }
    }
  }

  /** The loop over the documents and over the distinct terms of each. */
  method CountTerms(docs: seq<seq<string>>) returns (freqs: map<string, nat>)
    ensures freqs == DocFreqs(docs)
  {
    freqs := map[];
    for i := 0 to |docs|
      invariant freqs == DocFreqs(docs[..i])
    {
      freqs := CountTermsOf(docs, i, freqs);
    }
    assert docs[..|docs|] == docs;
  }

  lemma TermsSnoc(docs: seq<seq<string>>, i: nat, t: string)
    requires i < |docs|
    ensures t in Terms(docs[..i+1]) <==> t in Terms(docs[..i]) || t in docs[i]
    ensures DocCount(docs[..i+1], t) == DocCount(docs[..i], t) + if t in docs[i] then 1 else 0
    ensures t !in Terms(docs[..i]) ==> DocCount(docs[..i], t) == 0
  {
    assert docs[..i+1] == docs[..i] + [docs[i]];
    assert docs[..i+1][..i] == docs[..i];
    CountedIsTerm(docs[..i], t);
    CountedIsTerm(docs[..i+1], t);
  }

  predicate CountedSoFar(before: map<string, nat>, freqs: map<string, nat>, counted: set<string>, t: string) {
    && (t in freqs <==> t in before || t in counted)
    && (t in freqs ==> freqs[t] == (if t in before then before[t] else 0) + if t in counted then 1 else 0)
  }

  lemma OneMoreCounted(before: map<string, nat>, freqs: map<string, nat>, counted: set<string>, t: string)
    requires t !in counted && forall x :: CountedSoFar(before, freqs, counted, x)
    ensures var more := freqs[t := (if t in freqs then freqs[t] else 0) + 1];
            forall x :: CountedSoFar(before, more, counted + {t}, x)
  {
    var more := freqs[t := (if t in freqs then freqs[t] else 0) + 1];
    forall x ensures CountedSoFar(before, more, counted + {t}, x) {
      assert CountedSoFar(before, freqs, counted, x);
    }
  }

  method CountTermsOf(docs: seq<seq<string>>, i: nat, before: map<string, nat>) returns (freqs: map<string, nat>)
    requires i < |docs| && before == DocFreqs(docs[..i])
    ensures freqs == DocFreqs(docs[..i+1])
  {
    var seen := set t | t in docs[i];
    var todo := seen;
    freqs := before;
    while todo != {}
      invariant todo <= seen && forall t :: CountedSoFar(before, freqs, seen - todo, t)
      decreases todo
    {
      var t :| t in todo;
      OneMoreCounted(before, freqs, seen - todo, t);
      assert seen - (todo - {t}) == seen - todo + {t};
      freqs := freqs[t := (if t in freqs then freqs[t] else 0) + 1];
      todo := todo - {t};
    }
    forall t: string
      ensures (t in freqs <==> t in DocFreqs(docs[..i+1])) && (t in freqs ==> freqs[t] == DocFreqs(docs[..i+1])[t])
    {
      assert CountedSoFar(before, freqs, seen - todo, t);
      TermsSnoc(docs, i, t);
    }
  }

  method SumOf(ns: seq<nat>) returns (sum: nat)
    ensures sum == Sum(ns)
  {
    sum := 0;
    for i := 0 to |ns|
      invariant sum == Sum(ns[..i])
    {
      assert ns[..i+1][..i] == ns[..i];
      sum := sum + ns[i];
    }
    assert ns[..|ns|] == ns;
  }

  /** The documents of the chunks and their lengths. */
  method TokenizeAll(chunks: seq<Chunk>, lang: Language) returns (docs: seq<seq<string>>, lengths: seq<nat>)
    ensures docs == Tokenized(chunks, lang) && lengths == Lengths(docs)
  {
    docs, lengths := [], [];
    for i := 0 to |chunks|
      invariant docs == Tokenized(chunks[..i], lang) && lengths == Lengths(docs)
    {
      assert chunks[..i+1][..i] == chunks[..i];
      var doc := lang.tokenize(chunks[i].text);
      assert (docs + [doc])[..|docs|] == docs;
      docs, lengths := docs + [doc], lengths + [|doc|];
    }
    assert chunks[..|chunks|] == chunks;
  }

  /** `BM25Index.build`. */
  method Build(chunks: seq<Chunk>, lang: Language) returns (index: Index)
    ensures index == IndexOf(chunks, lang)
  {
    var docs, lengths := TokenizeAll(chunks, lang);
    var sum := SumOf(lengths);
    var freqs := CountTerms(docs);
    index := Index(chunks, freqs, lengths, sum as real / (if |lengths| > 1 then |lengths| else 1) as real, docs);
  }

  // ----- scores -----

  lemma {:induction false} SumAtLeast(ns: seq<nat>, i: nat)
    requires i < |ns|
    ensures Sum(ns) >= ns[i]
  {
    if i < |ns| - 1 { SumAtLeast(ns[..|ns|-1], i); }
  }

  /** Whenever a query term is looked up, the average length that scores divide by is positive. */
  lemma AveragePositive(docs: seq<seq<string>>, term: string)
    requires term in DocFreqs(docs)
    ensures Average(Lengths(docs)) > 0.0
  {
    var d :| d in docs && term in d;
    var i :| 0 <= i < |docs| && docs[i] == d;
    LengthsAt(docs);
    SumAtLeast(Lengths(docs), i);
    Quotient(Sum(Lengths(docs)) as real, (if |Lengths(docs)| > 1 then |Lengths(docs)| else 1) as real);
  }

  lemma Quotient(a: real, b: real)
    requires b > 0.0
    ensures a > 0.0 ==> a / b > 0.0
    ensures a == 0.0 ==> a / b == 0.0
  {
  }

  lemma Product(a: real, b: real)
    requires a > 0.0 && b >= 0.0
    ensures a * b >= 0.0 && (a * b > 0.0 <==> b > 0.0)
  {
  }

  function IdfArgument(n: nat, df: nat): real {
    (n as real - df as real + 0.5) / (df as real + 0.5) + 1.0
  }

  lemma IdfArgumentAboveOne(n: nat, df: nat)
    requires df <= n
    ensures IdfArgument(n, df) > 1.0
  {
    Quotient(n as real - df as real + 0.5, df as real + 0.5);
  }

  /** How much a length damps a count: from a quarter of 1.5 up, in proportion to the mean length. */
  function Damping(length: nat, mean: real): real
    requires mean > 0.0
  {
    1.5 * (0.25 + 0.75 * (length as real / mean))
  }

  /** The count of a term, saturated and damped. */
  function Weight(tf: nat, damping: real): real
    requires damping > 0.0
  {
    tf as real * 2.5 / (tf as real + damping)
  }

  lemma DampingPositive(length: nat, mean: real)
    requires mean > 0.0
    ensures Damping(length, mean) > 0.0
  {
    Quotient(length as real, mean);
  }

  lemma WeightPositive(tf: nat, damping: real)
    requires damping > 0.0
    ensures Weight(tf, damping) >= 0.0 && (Weight(tf, damping) > 0.0 <==> tf > 0)
  {
    Quotient(tf as real * 2.5, tf as real + damping);
  }

  /** How telling the term is, times its weight in the document. */
  function Contribution(n: nat, df: nat, tf: nat, damping: real, log: real --> real): real
    requires df <= n && damping > 0.0 && IsLog(log)
  {
    IdfArgumentAboveOne(n, df);
    log(IdfArgument(n, df)) * Weight(tf, damping)
  }

  /** What one query term adds to the score of one document. */
  function TermScore(docs: seq<seq<string>>, i: nat, term: string, log: real --> real): real
    requires i < |docs| && IsLog(log)
  {
    if term !in DocFreqs(docs) then 0.0 else
      AveragePositive(docs, term);
      CountedIsTerm(docs, term);
      IdfArgumentAboveOne(|docs|, DocCount(docs, term));
      DampingPositive(|docs[i]|, Average(Lengths(docs)));
      Contribution(|docs|, DocCount(docs, term), multiset(docs[i])[term],
                   Damping(|docs[i]|, Average(Lengths(docs))), log)
  }

  /** A term adds to the score exactly when the document contains it, and never subtracts. */
  lemma TermScorePositive(docs: seq<seq<string>>, i: nat, term: string, log: real --> real)
    requires i < |docs| && IsLog(log)
    ensures TermScore(docs, i, term, log) >= 0.0
    ensures TermScore(docs, i, term, log) > 0.0 <==> term in docs[i]
  {
    var tf := multiset(docs[i])[term];
    assert term in docs[i] <==> tf > 0;
    assert docs[i] in docs;
    if term in DocFreqs(docs) {
      AveragePositive(docs, term);
      CountedIsTerm(docs, term);
      IdfArgumentAboveOne(|docs|, DocCount(docs, term));
      DampingPositive(|docs[i]|, Average(Lengths(docs)));
      WeightPositive(tf, Damping(|docs[i]|, Average(Lengths(docs))));
      Product(log(IdfArgument(|docs|, DocCount(docs, term))), Weight(tf, Damping(|docs[i]|, Average(Lengths(docs)))));
    }
  }

  // ----- how the scores of terms compare -----

  lemma ProductGrows(a: real, b: real, c: real)
    requires a > b && c > 0.0
    ensures a * c > b * c && c * a > c * b
  {
    assert (a - b) * c > 0.0;
  }

  lemma LessOfQuotients(x: real, y: real, u: real, v: real)
    requires y > 0.0 && v > 0.0 && x * v > u * y
    ensures x / y > u / v
  {
    var p, q := x / y, u / v;
    assert p * y == x && q * v == u;
    assert (p * y) * v == p * (y * v) && (q * v) * y == q * (y * v);
    if q > p {
      ProductGrows(q, p, y * v);
    }
    assert p == q ==> p * (y * v) == q * (y * v);
  }

  /** A fraction a / (a + k) grows with a, and shrinks with k. */
  lemma SaturationGrows(a: real, b: real, k: real)
    requires a > b >= 0.0 && k > 0.0
    ensures a * 2.5 / (a + k) > b * 2.5 / (b + k)
  {
    ProductGrows(a, b, k);
    assert (a * 2.5) * (b + k) == 2.5 * (a * b) + 2.5 * (a * k);
    assert (b * 2.5) * (a + k) == 2.5 * (a * b) + 2.5 * (b * k);
    LessOfQuotients(a * 2.5, a + k, b * 2.5, b + k);
  }

  lemma SaturationShrinks(a: real, k: real, m: real)
    requires a > 0.0 && m > k > 0.0
    ensures a * 2.5 / (a + k) > a * 2.5 / (a + m)
  {
    ProductGrows(a + m, a + k, a * 2.5);
    LessOfQuotients(a * 2.5, a + k, a * 2.5, a + m);
  }

  lemma DampingGrows(length: nat, longer: nat, mean: real)
    requires mean > 0.0 && length < longer
    ensures 0.0 < Damping(length, mean) < Damping(longer, mean)
  {
    DampingPositive(length, mean);
    ProductGrows(longer as real, length as real, mean);
    LessOfQuotients(longer as real, mean, length as real, mean);
  }

  lemma IdfArgumentFalls(n: nat, a: nat, b: nat)
    requires a < b <= n
    ensures IdfArgument(n, a) > IdfArgument(n, b) > 1.0
  {
    var x, y, m := a as real, b as real, n as real;
    assert (m - x + 0.5) * (y + 0.5) - (m - y + 0.5) * (x + 0.5) == (y - x) * (m + 1.0);
    ProductGrows(y - x, 0.0, m + 1.0);
    LessOfQuotients(m - x + 0.5, x + 0.5, m - y + 0.5, y + 0.5);
    IdfArgumentAboveOne(n, b);
  }

  lemma InTerms(docs: seq<seq<string>>, i: nat, term: string)
    requires i < |docs| && term in docs[i]
    ensures term in DocFreqs(docs) && DocCount(docs, term) <= |docs| && Average(Lengths(docs)) > 0.0
    ensures multiset(docs[i])[term] > 0
  {
    assert docs[i] in docs;
    CountedIsTerm(docs, term);
    AveragePositive(docs, term);
  }

  lemma RarerCountsMore(n: nat, rare: nat, common: nat, tf: nat, damping: real, log: real --> real)
    requires rare < common <= n && tf > 0 && damping > 0.0 && IsLog(log)
    ensures Contribution(n, rare, tf, damping, log) > Contribution(n, common, tf, damping, log)
  {
    IdfArgumentFalls(n, rare, common);
    WeightPositive(tf, damping);
    ProductGrows(log(IdfArgument(n, rare)), log(IdfArgument(n, common)), Weight(tf, damping));
  }

  lemma HeavierCountsMore(n: nat, df: nat, tf: nat, damping: real, tf': nat, damping': real, log: real --> real)
    requires df <= n && damping > 0.0 && damping' > 0.0 && IsLog(log) && Weight(tf, damping) > Weight(tf', damping')
    ensures Contribution(n, df, tf, damping, log) > Contribution(n, df, tf', damping', log)
  {
    IdfArgumentAboveOne(n, df);
    ProductGrows(Weight(tf, damping), Weight(tf', damping'), log(IdfArgument(n, df)));
  }

  lemma OftenerCountsMore(n: nat, df: nat, tf: nat, tf': nat, damping: real, log: real --> real)
    requires df <= n && damping > 0.0 && IsLog(log) && tf > tf'
    ensures Contribution(n, df, tf, damping, log) > Contribution(n, df, tf', damping, log)
  {
    SaturationGrows(tf as real, tf' as real, damping);
    HeavierCountsMore(n, df, tf, damping, tf', damping, log);
  }

  lemma LessDampedCountsMore(n: nat, df: nat, tf: nat, damping: real, damping': real, log: real --> real)
    requires df <= n && 0.0 < damping < damping' && IsLog(log) && tf > 0
    ensures Contribution(n, df, tf, damping, log) > Contribution(n, df, tf, damping', log)
  {
    SaturationShrinks(tf as real, damping, damping');
    HeavierCountsMore(n, df, tf, damping, tf, damping', log);
  }

  /** Of two terms with the same count in a document, the one in fewer documents scores strictly more. */
  lemma {:induction false} RarerTermScoresMore(docs: seq<seq<string>>, i: nat, rare: string, common: string,
                                               log: real --> real)
    requires i < |docs| && IsLog(log) && rare in docs[i] && common in docs[i]
    requires multiset(docs[i])[rare] == multiset(docs[i])[common] && DocCount(docs, rare) < DocCount(docs, common)
    ensures TermScore(docs, i, rare, log) > TermScore(docs, i, common, log)
  {
    InTerms(docs, i, rare);
    InTerms(docs, i, common);
    DampingPositive(|docs[i]|, Average(Lengths(docs)));
    RarerCountsMore(|docs|, DocCount(docs, rare), DocCount(docs, common), multiset(docs[i])[rare],
                    Damping(|docs[i]|, Average(Lengths(docs))), log);
  }

  /** Of two documents of one length, the one with more occurrences of a term scores strictly more for it. */
  lemma {:induction false} MoreOccurrencesScoreMore(docs: seq<seq<string>>, i: nat, j: nat, term: string,
                                                    log: real --> real)
    requires i < |docs| && j < |docs| && IsLog(log) && |docs[i]| == |docs[j]|
    requires multiset(docs[i])[term] > multiset(docs[j])[term]
    ensures TermScore(docs, i, term, log) > TermScore(docs, j, term, log)
  {
    assert term in docs[i];
    InTerms(docs, i, term);
    DampingPositive(|docs[i]|, Average(Lengths(docs)));
    OftenerCountsMore(|docs|, DocCount(docs, term), multiset(docs[i])[term], multiset(docs[j])[term],
                      Damping(|docs[i]|, Average(Lengths(docs))), log);
  }

  /** Of two documents with the same count of a term, the shorter one scores strictly more for it. */
  lemma {:induction false} ShorterDocumentScoresMore(docs: seq<seq<string>>, i: nat, j: nat, term: string,
                                                     log: real --> real)
    requires i < |docs| && j < |docs| && IsLog(log) && |docs[i]| < |docs[j]| && term in docs[i]
    requires multiset(docs[i])[term] == multiset(docs[j])[term]
    ensures TermScore(docs, i, term, log) > TermScore(docs, j, term, log)
  {
    InTerms(docs, i, term);
    DampingGrows(|docs[i]|, |docs[j]|, Average(Lengths(docs)));
    LessDampedCountsMore(|docs|, DocCount(docs, term), multiset(docs[i])[term],
                         Damping(|docs[i]|, Average(Lengths(docs))), Damping(|docs[j]|, Average(Lengths(docs))), log);
  }

  // ----- the score of a query -----

  function Score(docs: seq<seq<string>>, i: nat, query: seq<string>, log: real --> real): real
    requires i < |docs| && IsLog(log)
  {
    if query == [] then 0.0 else
      Score(docs, i, query[..|query|-1], log) + TermScore(docs, i, query[|query|-1], log)
  }

  predicate SharesToken(doc: seq<string>, query: seq<string>) {
    exists t :: t in query && t in doc
  }

  /** A score is positive exactly when the document shares a token with the query; otherwise it is 0. */
  lemma {:induction false} ScorePositiveIffShared(docs: seq<seq<string>>, i: nat, query: seq<string>,
                                                  log: real --> real)
    requires i < |docs| && IsLog(log)
    ensures Score(docs, i, query, log) >= 0.0
    ensures Score(docs, i, query, log) > 0.0 <==> SharesToken(docs[i], query)
  {
    if query != [] {
      var n := |query| - 1;
      ScorePositiveIffShared(docs, i, query[..n], log);
      TermScorePositive(docs, i, query[n], log);
      assert query == query[..n] + [query[n]];
      if SharesToken(docs[i], query[..n]) {
        var t :| t in query[..n] && t in docs[i];
        assert t in query;
      }
    }
  }

  // ----- ranking -----

  datatype Hit = Hit(chunk: Chunk, score: real)

  predicate NoWorse(a: Hit, b: Hit) {
    a.score >= b.score
  }

  function Positive(hits: seq<Hit>): seq<Hit> {
    if hits == [] then [] else
      Positive(hits[..|hits|-1]) + if hits[|hits|-1].score > 0.0 then [hits[|hits|-1]] else []
  }

  function Scored(index: Index, query: seq<string>, log: real --> real, n: nat): seq<Hit>
    requires n <= |index.docs| == |index.chunks| && IsLog(log)
  {
    if n == 0 then [] else
      Scored(index, query, log, n - 1) + [Hit(index.chunks[n-1], Score(index.docs, n - 1, query, log))]
  }

  function AllScored(index: Index, query: seq<string>, log: real --> real): seq<Hit>
    requires |index.docs| == |index.chunks| && IsLog(log)
  {
    Scored(index, query, log, |index.chunks|)
  }

  lemma {:induction false} ScoredAt(index: Index, query: seq<string>, log: real --> real, n: nat)
    requires n <= |index.docs| == |index.chunks| && IsLog(log)
    ensures |Scored(index, query, log, n)| == n
    ensures forall i :: 0 <= i < n ==>
              Scored(index, query, log, n)[i] == Hit(index.chunks[i], Score(index.docs, i, query, log))
  {
    if n > 0 { ScoredAt(index, query, log, n - 1); }
  }

  function Best(hits: seq<Hit>, topK: nat): seq<Hit> {
    var sorted := StableSort.Sort(hits, NoWorse);
    Positive(if topK < |sorted| then sorted[..topK] else sorted)
  }

  lemma {:induction false} PositiveIsPrefix(hits: seq<Hit>)
    requires StableSort.Sorted(hits, NoWorse)
    ensures Positive(hits) <= hits
    ensures |Positive(hits)| < |hits| ==> hits[|Positive(hits)|].score <= 0.0
    ensures forall h :: h in Positive(hits) ==> h.score > 0.0
  {
    if hits != [] {
      var n := |hits| - 1;
      PositiveIsPrefix(hits[..n]);
      assert hits == hits[..n] + [hits[n]];
      if |Positive(hits[..n])| < n {
        assert NoWorse(hits[|Positive(hits[..n])|], hits[n]);
      }
    }
  }

  lemma PositiveCount(a: seq<Hit>, b: seq<Hit>)
    requires multiset(a) == multiset(b)
    ensures multiset(Positive(a)) == multiset(Positive(b))
  {
    PositiveMembers(a);
    PositiveMembers(b);
    forall h: Hit ensures multiset(Positive(a))[h] == multiset(Positive(b))[h] {
      assert multiset(a)[h] == multiset(b)[h];
    }
  }

  lemma {:induction false} PositiveMembers(hits: seq<Hit>)
    ensures forall h :: multiset(Positive(hits))[h] == if h.score > 0.0 then multiset(hits)[h] else 0
  {
    if hits != [] {
      PositiveMembers(hits[..|hits|-1]);
      assert hits == hits[..|hits|-1] + [hits[|hits|-1]];
    }
  }

  lemma NoWorseIsPreorder()
    ensures StableSort.TotalPreorder(NoWorse)
  {
  }

  lemma {:induction false} PositiveOfPrefix(sorted: seq<Hit>, k: nat)
    requires StableSort.Sorted(sorted, NoWorse) && k <= |sorted|
    ensures |Positive(sorted[..k])| == if k < |Positive(sorted)| then k else |Positive(sorted)|
  {
    PositiveIsPrefix(sorted);
    if k == |sorted| {
      assert sorted[..k] == sorted;
    } else {
      var n := |sorted| - 1;
      var front := sorted[..n];
      PositiveOfPrefix(front, k);
      PositiveIsPrefix(front);
      assert front[..k] == sorted[..k];
      if |Positive(front)| < n { assert NoWorse(sorted[|Positive(front)|], sorted[n]); }
    }
  }

  lemma TopOfSorted(sorted: seq<Hit>, topK: nat)
    requires StableSort.Sorted(sorted, NoWorse)
    ensures var top := Positive(if topK < |sorted| then sorted[..topK] else sorted);
            && |top| <= |sorted| && top == sorted[..|top|]
            && |top| == (if topK < |Positive(sorted)| then topK else |Positive(sorted)|)
            && (forall h :: h in top ==> h.score > 0.0)
  {
    PositiveIsPrefix(sorted);
    if topK < |sorted| {
      PositiveIsPrefix(sorted[..topK]);
      PositiveOfPrefix(sorted, topK);
    }
  }

  lemma BestIsPrefix(hits: seq<Hit>, topK: nat)
    ensures var sorted, best := StableSort.Sort(hits, NoWorse), Best(hits, topK);
            && StableSort.Sorted(sorted, NoWorse) && multiset(sorted) == multiset(hits)
            && |best| <= |sorted| && best == sorted[..|best|]
            && |best| == (if topK < |Positive(hits)| then topK else |Positive(hits)|)
            && (forall h :: h in best ==> h.score > 0.0)
  {
    SortedHits(hits);
    TopOfSorted(StableSort.Sort(hits, NoWorse), topK);
  }

  lemma SortedHits(hits: seq<Hit>)
    ensures var sorted := StableSort.Sort(hits, NoWorse);
            && StableSort.Sorted(sorted, NoWorse) && multiset(sorted) == multiset(hits)
            && |Positive(sorted)| == |Positive(hits)|
  {
    var sorted := StableSort.Sort(hits, NoWorse);
    StableSort.Permutes(hits, NoWorse);
    NoWorseIsPreorder();
    StableSort.Sorts(hits, NoWorse);
    PositiveCount(hits, sorted);
    assert |multiset(Positive(hits))| == |multiset(Positive(sorted))|;
  }

  /** The best hits are ranked, come from the hits, are as many as asked for or as there are positive ones, and nothing
      that is left out scores more than anything returned. */
  lemma {:induction false} BestAreBest(hits: seq<Hit>, topK: nat)
    ensures var best := Best(hits, topK);
            && StableSort.Sorted(best, NoWorse) && multiset(best) <= multiset(hits)
            && |best| == (if topK < |Positive(hits)| then topK else |Positive(hits)|)
            && (forall h :: h in best ==> h.score > 0.0)
            && (forall h, o :: h in best && o in multiset(hits) - multiset(best) ==> h.score >= o.score)
  {
    var sorted, best := StableSort.Sort(hits, NoWorse), Best(hits, topK);
    BestIsPrefix(hits, topK);
    var rest := sorted[|best|..];
    assert sorted == best + rest;
    assert multiset(hits) == multiset(best) + multiset(rest);
    forall h, o | h in best && o in rest ensures h.score >= o.score {
      PrefixNoWorse(best, rest, h, o);
    }
  }

  lemma PrefixNoWorse(a: seq<Hit>, b: seq<Hit>, h: Hit, o: Hit)
    requires StableSort.Sorted(a + b, NoWorse) && h in a && o in b
    ensures h.score >= o.score
  {
    var i :| 0 <= i < |a| && a[i] == h;
    var j :| 0 <= j < |b| && b[j] == o;
    assert NoWorse((a + b)[i], (a + b)[|a| + j]);
  }

  /** The number of documents that share a token with the query. */
  function Sharing(docs: seq<seq<string>>, query: seq<string>): nat {
    if docs == [] then 0 else Sharing(docs[..|docs|-1], query) + if SharesToken(docs[|docs|-1], query) then 1 else 0
  }

  lemma {:induction false} PositiveAreSharing(index: Index, query: seq<string>, log: real --> real, n: nat)
    requires n <= |index.docs| == |index.chunks| && IsLog(log)
    ensures |Positive(Scored(index, query, log, n))| == Sharing(index.docs[..n], query)
  {
    if n > 0 {
      PositiveAreSharing(index, query, log, n - 1);
      ScorePositiveIffShared(index.docs, n - 1, query, log);
      assert index.docs[..n][..n-1] == index.docs[..n-1];
      var before := Scored(index, query, log, n - 1);
      assert Scored(index, query, log, n)[..|before|] == before;
    }
  }

  /** A search returns as many chunks as asked for, or all those that share a token with the query; each of them shares
      one, comes with its own score, and is not outscored by a chunk that is left out. */
  lemma {:induction false} SearchReturnsSharers(index: Index, query: seq<string>, topK: nat, log: real --> real)
    requires Built(index) && IsLog(log)
    ensures var hits, best := AllScored(index, query, log), Best(AllScored(index, query, log), topK);
            && |best| == (if topK < Sharing(index.docs, query) then topK else Sharing(index.docs, query))
            && StableSort.Sorted(best, NoWorse) && multiset(best) <= multiset(hits)
            && (forall h :: h in best ==> IsSharer(index, query, log, h))
            && (forall h, o :: h in best && o in multiset(hits) - multiset(best) ==> h.score >= o.score)
  {
    var hits, best := AllScored(index, query, log), Best(AllScored(index, query, log), topK);
    BestAreBest(hits, topK);
    PositiveAreSharing(index, query, log, |index.docs|);
    assert index.docs[..|index.docs|] == index.docs;
    forall h | h in best ensures IsSharer(index, query, log, h) {
      assert h in multiset(best) && h in multiset(hits);
      PositiveIsSharer(index, query, log, h);
    }
  }

  /** A chunk that shares a token with the query, with its score. */
  ghost predicate IsSharer(index: Index, query: seq<string>, log: real --> real, h: Hit)
    requires |index.docs| == |index.chunks| && IsLog(log)
  {
    exists i :: 0 <= i < |index.chunks| && SharesToken(index.docs[i], query)
                && h == Hit(index.chunks[i], Score(index.docs, i, query, log))
  }

  lemma PositiveIsSharer(index: Index, query: seq<string>, log: real --> real, h: Hit)
    requires |index.docs| == |index.chunks| && IsLog(log) && h in AllScored(index, query, log) && h.score > 0.0
    ensures IsSharer(index, query, log, h)
  {
    ScoredAt(index, query, log, |index.chunks|);
    var hits := AllScored(index, query, log);
    var i :| 0 <= i < |hits| && hits[i] == h;
    ScorePositiveIffShared(index.docs, i, query, log);
  }

  // ----- the search -----

  /** The derived fields of an index fit its documents. */
  ghost predicate Built(index: Index) {
    && |index.docs| == |index.chunks| && index.docFreqs == DocFreqs(index.docs)
    && index.docLengths == Lengths(index.docs) && index.average == Average(index.docLengths)
  }

  lemma IndexIsBuilt(chunks: seq<Chunk>, lang: Language)
    ensures Built(IndexOf(chunks, lang))
  {
    TokenizedAt(chunks, lang);
  }

  /** `BM25Index.search`. */
  method Search(index: Index, query: string, topK: nat, lang: Language, log: real --> real) returns (results: seq<Hit>)
    requires IsLog(log) && Built(index)
    ensures results == Best(AllScored(index, lang.tokenize(query), log), topK)
  {
    var tokens := lang.tokenize(query);
    if |index.chunks| == 0 {
      return [];
    }
    var scores := ScoreAll(index, tokens, log);
    scores := StableSort.Sort(scores, NoWorse);
    results := KeepPositive(if topK < |scores| then scores[..topK] else scores);
  }

  method KeepPositive(hits: seq<Hit>) returns (results: seq<Hit>)
    ensures results == Positive(hits)
  {
    results := [];
    for i := 0 to |hits|
      invariant results == Positive(hits[..i])
    {
      assert hits[..i+1][..i] == hits[..i];
      if hits[i].score > 0.0 {
        results := results + [hits[i]];
      }
    }
    assert hits[..|hits|] == hits;
  }

  method ScoreAll(index: Index, tokens: seq<string>, log: real --> real) returns (scores: seq<Hit>)
    requires IsLog(log) && Built(index)
    ensures scores == AllScored(index, tokens, log)
  {
    scores := [];
    for i := 0 to |index.docs|
      invariant scores == Scored(index, tokens, log, i)
    {
      var score := ScoreDocument(index, i, tokens, log);
      scores := scores + [Hit(index.chunks[i], score)];
    }
  }

  /** The inner loop over the query terms. */
  method ScoreDocument(index: Index, i: nat, tokens: seq<string>, log: real --> real) returns (score: real)
    requires IsLog(log) && Built(index) && i < |index.docs|
    ensures score == Score(index.docs, i, tokens, log)
  {
    score := 0.0;
    for j := 0 to |tokens|
      invariant score == Score(index.docs, i, tokens[..j], log)
    {
      assert tokens[..j+1][..j] == tokens[..j];
      var more := ScoreTerm(index, i, tokens[j], log);
      score := score + more;
    }
    assert tokens[..|tokens|] == tokens;
  }

  lemma DampingIs(length: nat, average: real)
    requires average > 0.0
    ensures K1 * (1.0 - B + B * length as real / average) == Damping(length, average)
  {
    assert B * length as real / average == 0.75 * (length as real / average);
  }

  method ScoreTerm(index: Index, i: nat, term: string, log: real --> real) returns (score: real)
    requires IsLog(log) && Built(index) && i < |index.docs|
    ensures score == TermScore(index.docs, i, term, log)
  {
    LengthsAt(index.docs);
    score := 0.0;
    if term in index.docFreqs {
      AveragePositive(index.docs, term);
      CountedIsTerm(index.docs, term);
      IdfArgumentAboveOne(|index.chunks|, index.docFreqs[term]);
      DampingPositive(index.docLengths[i], index.average);
      var tf := multiset(index.docs[i])[term] as real;
      var n, df := |index.chunks| as real, index.docFreqs[term] as real;
      var damping := K1 * (1.0 - B + B * index.docLengths[i] as real / index.average);
      DampingIs(index.docLengths[i], index.average);
      score := log((n - df + 0.5) / (df + 0.5) + 1.0) * (tf * (K1 + 1.0) / (tf + damping));
    }
  }
}
