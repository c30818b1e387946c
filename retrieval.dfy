/**
 * Retrieval (`RagEngine.retrieve`): every knowledge source is chunked, every
 * chunk is scored against the query, chunks that score zero are dropped,
 * the rest are sorted by descending score and the first `topK` are kept.
 *
 * The sort is JavaScript's `Array.prototype.sort`, which is stable: it is
 * modelled by an insertion sort that keeps chunks of equal score in the
 * order they were generated (source order, then chunk order).
 */
module Retrieval {
  import opened Wrappers
  import Chunking
  import Scoring

  /** A knowledge source `{ name, type, content }`. */
  datatype Source = Source(name: string, kind: string, content: string)

  /** A retrieval result `{ sourceName, content, score }`. */
  datatype ScoredChunk = ScoredChunk(sourceName: string, content: string, score: real)

  /** `{ topK, chunkSize }`; an absent field is `undefined`. */
  datatype Options = Options(topK: Option<nat>, chunkSize: Option<nat>)

  /** The options `retrieve` uses when it is given none. */
  const DefaultOptions: Options := Options(Some(3), Some(500))

  /** `chunkText(content, options.chunkSize)`: an undefined size falls back to the chunker's default. */
  function ChunkSizeOf(options: Options): nat {
    options.chunkSize.GetOr(Chunking.DefaultChunkSize)
  }

  // ----- step 1: chunk every source -----

  /** The chunks of one source, each named after it and scored 0. */
  function Wrap(name: string, chunks: seq<string>): seq<ScoredChunk> {
    seq(|chunks|, k requires 0 <= k < |chunks| => ScoredChunk(name, chunks[k], 0.0))
  }

  /** What one source contributes: nothing when its content is empty. */
  function SourceChunks(source: Source, chunkSize: nat): seq<ScoredChunk> {
    if source.content == [] then []
    else Wrap(source.name, Chunking.Chunks(source.content, chunkSize, Chunking.DefaultOverlap))
  }

  /** `allChunks` after the first `n` sources: source order, then chunk order. */
  function Pending(kb: seq<Source>, chunkSize: nat, n: nat): seq<ScoredChunk>
    requires n <= |kb|
  {
    if n == 0 then [] else Pending(kb, chunkSize, n - 1) + SourceChunks(kb[n - 1], chunkSize)
  }

  // ----- step 2: score every chunk -----

  function Rescore(query: string, c: ScoredChunk): ScoredChunk {
    c.(score := Scoring.Score(query, c.content))
  }

  function ScoreAll(query: string, cs: seq<ScoredChunk>): seq<ScoredChunk> {
    seq(|cs|, k requires 0 <= k < |cs| => Rescore(query, cs[k]))
  }

  /** Every chunk of every source, scored against the query, in generation order. */
  function Candidates(query: string, kb: seq<Source>, chunkSize: nat): seq<ScoredChunk> {
    ScoreAll(query, Pending(kb, chunkSize, |kb|))
  }

  // ----- step 3: filter and sort -----

  /** `filter(chunk => chunk.score > 0)`. */
  function Relevant(cs: seq<ScoredChunk>): (r: seq<ScoredChunk>)
    ensures |r| <= |cs|
  {
    if cs == [] then [] else (if cs[0].score > 0.0 then [cs[0]] else []) + Relevant(cs[1..])
  }

  /** The chunks whose score is exactly `v`, in their order. */
  function WithScore(cs: seq<ScoredChunk>, v: real): (r: seq<ScoredChunk>)
    ensures |r| <= |cs|
  {
    if cs == [] then [] else (if cs[0].score == v then [cs[0]] else []) + WithScore(cs[1..], v)
  }

  predicate Sorted(cs: seq<ScoredChunk>) {
    forall i, j :: 0 <= i < j < |cs| ==> cs[i].score >= cs[j].score
  }

  /** Places `x`, which came before every element of `cs`, ahead of the first element that does not outscore it. */
  function Insert(x: ScoredChunk, cs: seq<ScoredChunk>): seq<ScoredChunk> {
    if cs == [] || cs[0].score <= x.score then [x] + cs else [cs[0]] + Insert(x, cs[1..])
  }

  /** `sort((a, b) => b.score - a.score)`, stable. */
  function SortByScore(cs: seq<ScoredChunk>): seq<ScoredChunk> {
    if cs == [] then [] else Insert(cs[0], SortByScore(cs[1..]))
  }

  /** The relevant candidates, best first. */
  function Ranked(query: string, kb: seq<Source>, chunkSize: nat): seq<ScoredChunk> {
    SortByScore(Relevant(Candidates(query, kb, chunkSize)))
  }

  // ----- step 4: top K -----

  /** `slice(0, topK)`: an undefined `topK` keeps everything. */
  function Take(cs: seq<ScoredChunk>, topK: Option<nat>): (r: seq<ScoredChunk>)
    ensures |r| <= |cs| && r == cs[..|r|]
  {
    match topK
    case None => cs
    case Some(k) => if k < |cs| then cs[..k] else cs
  }

  /** `retrieve(query, knowledgeBase, options)`, as a function of its inputs. */
  function RetrieveSpec(query: string, kb: seq<Source>, options: Options): seq<ScoredChunk> {
    if query == [] || kb == [] then []
    else Take(Ranked(query, kb, ChunkSizeOf(options)), options.topK)
  }

  lemma WrapStep(name: string, chunks: seq<string>, j: nat)
    requires j < |chunks|
    ensures Wrap(name, chunks[..j + 1]) == Wrap(name, chunks[..j]) + [ScoredChunk(name, chunks[j], 0.0)]
  {
  }

  /** The chunks of one source appended to `allChunks`, each with score 0. */
  method AppendSourceChunks(allChunks: seq<ScoredChunk>, source: Source, chunkSize: nat)
    returns (result: seq<ScoredChunk>)
    ensures result == allChunks + SourceChunks(source, chunkSize)
  {
    result := allChunks;
    if source.content != [] {
      var sourceChunks := Chunking.ChunkText(source.content, chunkSize, Chunking.DefaultOverlap);
      var j := 0;
      while j < |sourceChunks|
        invariant 0 <= j <= |sourceChunks|
        invariant result == allChunks + Wrap(source.name, sourceChunks[..j])
      {
        WrapStep(source.name, sourceChunks, j);
        result := result + [ScoredChunk(source.name, sourceChunks[j], 0.0)];
        j := j + 1;
      }
      assert sourceChunks[..j] == sourceChunks;
    }
  }

  /** The chunking pass of `retrieve`: every source in order, each chunk with score 0. */
  method GenerateChunks(kb: seq<Source>, chunkSize: nat) returns (allChunks: seq<ScoredChunk>)
    ensures allChunks == Pending(kb, chunkSize, |kb|)
  {
    allChunks := [];
    var i := 0;
    while i < |kb|
      invariant 0 <= i <= |kb|
      invariant allChunks == Pending(kb, chunkSize, i)
    {
      PendingStep(kb, chunkSize, i);
      allChunks := AppendSourceChunks(allChunks, kb[i], chunkSize);
      i := i + 1;
    }
  }

  lemma PendingStep(kb: seq<Source>, chunkSize: nat, i: nat)
    requires i < |kb|
    ensures Pending(kb, chunkSize, i + 1) == Pending(kb, chunkSize, i) + SourceChunks(kb[i], chunkSize)
  {
  }

  /** The scoring pass of `retrieve`: each chunk's score set to its score against the query. */
  method ScoreChunks(query: string, chunks: seq<ScoredChunk>) returns (allChunks: seq<ScoredChunk>)
    ensures allChunks == ScoreAll(query, chunks)
  {
    allChunks := chunks;
    var k := 0;
    while k < |allChunks|
      invariant 0 <= k <= |allChunks| == |chunks|
      invariant forall m :: 0 <= m < k ==> allChunks[m] == Rescore(query, chunks[m])
      invariant forall m :: k <= m < |allChunks| ==> allChunks[m] == chunks[m]
    {
      var score := Scoring.CalculateScore(query, allChunks[k].content);
      allChunks := allChunks[k := allChunks[k].(score := score)];
      k := k + 1;
    }
  }

  /** `retrieve`: chunk every source, score every chunk, then filter, sort and slice. */
  method Retrieve(query: string, kb: seq<Source>, options: Options) returns (result: seq<ScoredChunk>)
    ensures result == RetrieveSpec(query, kb, options)
  {
    if query == [] || kb == [] {
      return [];
    }
    var chunkSize := ChunkSizeOf(options);
    var allChunks := GenerateChunks(kb, chunkSize);
    allChunks := ScoreChunks(query, allChunks);
    result := Take(SortByScore(Relevant(allChunks)), options.topK);
  }

  // ----- properties of the pipeline -----

  /** A source contributes chunks exactly when its content is not empty. */
  lemma SourceContributes(source: Source, chunkSize: nat)
    ensures SourceChunks(source, chunkSize) == [] <==> source.content == []
  {
    Chunking.ShortText(source.content, chunkSize, Chunking.DefaultOverlap);
  }

  /** The chunk came from a source of the knowledge base of that name, by the chunker with these sizes. */
  ghost predicate FromSource(kb: seq<Source>, chunkSize: nat, c: ScoredChunk) {
    exists d :: 0 <= d < |kb| && kb[d].name == c.sourceName
      && c.content in Chunking.Chunks(kb[d].content, chunkSize, Chunking.DefaultOverlap)
  }

  /** The chunks of the `d`-th source name it and still score 0. */
  lemma SourceChunksProvenance(kb: seq<Source>, chunkSize: nat, d: nat)
    requires d < |kb|
    ensures forall c :: c in SourceChunks(kb[d], chunkSize) ==> c.score == 0.0 && FromSource(kb, chunkSize, c)
  {
    var src := kb[d];
    var ch := Chunking.Chunks(src.content, chunkSize, Chunking.DefaultOverlap);
    forall c | c in SourceChunks(src, chunkSize)
      ensures c.score == 0.0 && FromSource(kb, chunkSize, c)
    {
      var k :| 0 <= k < |ch| && c == ScoredChunk(src.name, ch[k], 0.0);
      assert ch[k] in ch;
    }
  }

  /** Every generated chunk names the source it was cut from and still scores 0. */
  lemma {:induction false} PendingProvenance(kb: seq<Source>, chunkSize: nat, n: nat)
    requires n <= |kb|
    ensures forall c :: c in Pending(kb, chunkSize, n) ==> c.score == 0.0 && FromSource(kb, chunkSize, c)
    decreases n
  {
    if n > 0 {
      var before := Pending(kb, chunkSize, n - 1);
      var last := SourceChunks(kb[n - 1], chunkSize);
      PendingProvenance(kb, chunkSize, n - 1);
      SourceChunksProvenance(kb, chunkSize, n - 1);
      PendingStep(kb, chunkSize, n - 1);
      forall c | c in Pending(kb, chunkSize, n)
        ensures c.score == 0.0 && FromSource(kb, chunkSize, c)
      {
        InConcat(c, before, last);
      }
    }
  }

  lemma InConcat(c: ScoredChunk, a: seq<ScoredChunk>, b: seq<ScoredChunk>)
    requires c in a + b
    ensures c in a || c in b
  {
  }

  /** Every candidate names its source and carries its score against the query. */
  lemma CandidateProvenance(query: string, kb: seq<Source>, chunkSize: nat)
    ensures forall c :: c in Candidates(query, kb, chunkSize) ==>
              c.score == Scoring.Score(query, c.content) && FromSource(kb, chunkSize, c)
  {
    var p := Pending(kb, chunkSize, |kb|);
    PendingProvenance(kb, chunkSize, |kb|);
    forall c | c in Candidates(query, kb, chunkSize)
      ensures c.score == Scoring.Score(query, c.content) && FromSource(kb, chunkSize, c)
    {
      var k :| 0 <= k < |p| && c == Rescore(query, p[k]);
      assert p[k] in p;
      var d :| 0 <= d < |kb| && kb[d].name == p[k].sourceName
        && p[k].content in Chunking.Chunks(kb[d].content, chunkSize, Chunking.DefaultOverlap);
    }
  }

  /** The filter keeps exactly the chunks with a positive score, in their order. */
  lemma {:induction false} RelevantMembers(cs: seq<ScoredChunk>)
    ensures forall c :: c in Relevant(cs) <==> c in cs && c.score > 0.0
  {
    if cs != [] {
      RelevantMembers(cs[1..]);
      assert forall c :: c in cs <==> c == cs[0] || c in cs[1..];
    }
  }

  /** Inserting adds exactly one element. */
  lemma {:induction false} InsertPermutes(x: ScoredChunk, cs: seq<ScoredChunk>)
    ensures multiset(Insert(x, cs)) == multiset(cs) + multiset{x}
  {
    if cs != [] && cs[0].score > x.score {
      InsertPermutes(x, cs[1..]);
      assert cs == [cs[0]] + cs[1..];
    }
  }

  /** Inserting into a sorted list keeps it sorted. */
  lemma {:induction false} InsertSorted(x: ScoredChunk, cs: seq<ScoredChunk>)
    requires Sorted(cs)
    ensures Sorted(Insert(x, cs))
  {
    if cs != [] && cs[0].score > x.score {
      InsertSorted(x, cs[1..]);
      InsertPermutes(x, cs[1..]);
      var r := Insert(x, cs);
      forall j | 1 <= j < |r| ensures cs[0].score >= r[j].score {
        assert r[j] in multiset(Insert(x, cs[1..]));
        assert r[j] == x || r[j] in cs[1..];
      }
    }
  }

  /** The sort orders by non-increasing score and is a permutation of its input. */
  lemma {:induction false} SortByScoreCorrect(cs: seq<ScoredChunk>)
    ensures Sorted(SortByScore(cs))
    ensures multiset(SortByScore(cs)) == multiset(cs)
  {
    if cs != [] {
      SortByScoreCorrect(cs[1..]);
      InsertSorted(cs[0], SortByScore(cs[1..]));
      InsertPermutes(cs[0], SortByScore(cs[1..]));
      assert cs == [cs[0]] + cs[1..];
    }
  }

  /**
   * Inserting `x` ahead of everything of equal score: among the chunks of
   * score `v`, `x` comes first when it has that score, and the others keep
   * their order.
   */
  lemma {:induction false} InsertStable(x: ScoredChunk, cs: seq<ScoredChunk>, v: real)
    ensures WithScore(Insert(x, cs), v) == (if x.score == v then [x] else []) + WithScore(cs, v)
  {
    if cs != [] && cs[0].score > x.score {
      InsertStable(x, cs[1..], v);
      assert Insert(x, cs)[1..] == Insert(x, cs[1..]);
    }
  }

  /** The sort is stable: the chunks of each score appear in their original order. */
  lemma {:induction false} SortByScoreStable(cs: seq<ScoredChunk>, v: real)
    ensures WithScore(SortByScore(cs), v) == WithScore(cs, v)
  {
    if cs != [] {
      SortByScoreStable(cs[1..], v);
      InsertStable(cs[0], SortByScore(cs[1..]), v);
    }
  }

  /** Filtering out zero scores does not disturb the chunks of any positive score. */
  lemma {:induction false} RelevantStable(cs: seq<ScoredChunk>, v: real)
    requires v > 0.0
    ensures WithScore(Relevant(cs), v) == WithScore(cs, v)
  {
    if cs != [] {
      RelevantStable(cs[1..], v);
      if cs[0].score > 0.0 {
        assert Relevant(cs) == [cs[0]] + Relevant(cs[1..]);
      } else {
        assert Relevant(cs) == Relevant(cs[1..]);
      }
    }
  }

  /**
   * The ranking holds every candidate with a positive score, each as often
   * as it was generated, ordered by non-increasing score, and candidates of
   * equal score keep the order they were generated in.
   */
  lemma RankedCorrect(query: string, kb: seq<Source>, chunkSize: nat)
    ensures var ranked := Ranked(query, kb, chunkSize);
      var candidates := Candidates(query, kb, chunkSize);
      Sorted(ranked)
      && multiset(ranked) == multiset(Relevant(candidates))
      && (forall c :: c in ranked <==> c in candidates && c.score > 0.0)
      && (forall v :: v > 0.0 ==> WithScore(ranked, v) == WithScore(candidates, v))
  {
    var candidates := Candidates(query, kb, chunkSize);
    var relevant := Relevant(candidates);
    SortByScoreCorrect(relevant);
    RelevantMembers(candidates);
    assert forall c :: c in SortByScore(relevant) <==> c in multiset(relevant);
    forall v | v > 0.0
      ensures WithScore(Ranked(query, kb, chunkSize), v) == WithScore(candidates, v)
    {
      SortByScoreStable(relevant, v);
      RelevantStable(candidates, v);
    }
  }

  /**
   * The result of `retrieve`: the first `topK` entries of the ranking (all
   * of it when `topK` is undefined); every entry scores above zero, carries
   * its own score against the query and names the source it was cut from;
   * no entry left out outscores one kept.
   */
  lemma RetrieveCorrect(query: string, kb: seq<Source>, options: Options)
    requires query != [] && kb != []
    ensures var r := RetrieveSpec(query, kb, options);
      var ranked := Ranked(query, kb, ChunkSizeOf(options));
      r == ranked[..|r|]
      && (options.topK.None? ==> r == ranked)
      && (options.topK.Some? ==> |r| == if options.topK.value < |ranked| then options.topK.value else |ranked|)
      && Sorted(r)
      && (forall i, j :: 0 <= i < |r| <= j < |ranked| ==> ranked[j].score <= r[i].score)
      && (forall c :: c in r ==>
            c.score > 0.0 && c.score == Scoring.Score(query, c.content)
            && FromSource(kb, ChunkSizeOf(options), c))
  {
    var chunkSize := ChunkSizeOf(options);
    var r := RetrieveSpec(query, kb, options);
    var ranked := Ranked(query, kb, chunkSize);
    RankedCorrect(query, kb, chunkSize);
    CandidateProvenance(query, kb, chunkSize);
    forall c | c in r
      ensures c.score > 0.0 && c.score == Scoring.Score(query, c.content) && FromSource(kb, chunkSize, c)
    {
      assert c in ranked;
    }
  }

  /** Without a query or without sources nothing is retrieved. */
  lemma RetrieveNothing(query: string, kb: seq<Source>, options: Options)
    requires query == [] || kb == [] || forall s :: s in kb ==> s.content == []
    ensures RetrieveSpec(query, kb, options) == []
  {
    if query != [] && kb != [] {
      var chunkSize := ChunkSizeOf(options);
      NoContentNoChunks(kb, chunkSize, |kb|);
    }
  }

  /** A query without tokens retrieves nothing: every candidate scores zero. */
  lemma NoTokensNothing(query: string, kb: seq<Source>, options: Options)
    requires Scoring.Tokens(query) == []
    ensures RetrieveSpec(query, kb, options) == []
  {
    if query != [] && kb != [] {
      var cs := Candidates(query, kb, ChunkSizeOf(options));
      NothingRelevant(cs);
    }
  }

  lemma {:induction false} NothingRelevant(cs: seq<ScoredChunk>)
    requires forall k :: 0 <= k < |cs| ==> cs[k].score <= 0.0
    ensures Relevant(cs) == []
  {
    if cs != [] {
      NothingRelevant(cs[1..]);
    }
  }

  lemma {:induction false} NoContentNoChunks(kb: seq<Source>, chunkSize: nat, n: nat)
    requires n <= |kb|
    requires forall s :: s in kb ==> s.content == []
    ensures Pending(kb, chunkSize, n) == []
    decreases n
  {
    if n > 0 {
      NoContentNoChunks(kb, chunkSize, n - 1);
      assert kb[n - 1] in kb;
    }
  }
}
