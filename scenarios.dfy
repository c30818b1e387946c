/**
 * The retrieval scenario of the repository's quality check: three one-line
 * sources, the query "red apples" and `{ topK: 1 }`.  Only the second
 * source shares words with the query ("apples" and "red"), so it is the one
 * result, with score 2.
 */
module Scenarios {
  import opened Wrappers
  import opened Scoring
  import opened Retrieval
  import Chunking

  lemma LowerDotted(w: string)
    requires LowerWord(w)
    ensures Lower(w + ".") == w + "."
  {
    LowerWordChars(w);
    var t := w + ".";
    assert forall i :: 0 <= i < |t| ==> LowerChar(t[i]) == t[i];
  }

  lemma StripDotted(w: string)
    requires LowerWord(w)
    ensures Strip(w + ".") == w
  {
    LowerWordChars(w);
    StripConcat(w, ".");
    StripKeepsKept(w);
    assert Strip(".") == [];
    assert w + [] == w;
  }

  /** A lower-case word followed by a full stop tokenizes like the word alone: the stop is stripped. */
  lemma DottedWordTokens(w: string)
    requires w != [] && LowerWord(w)
    ensures Tokens(w + ".") == if |w| > 2 then [w] else []
  {
    LowerDotted(w);
    StripDotted(w);
    CleanWordTokens(w + ".", w);
  }

  lemma TheCapitalWord()
    ensures Tokens("The") == ["the"]
  {
    assert Lower("The") == "the";
    CleanWordTokens("The", "the");
  }

  lemma SkyWord()
    ensures Tokens("sky") == ["sky"]
  {
    SingleWordTokens("sky");
  }

  lemma IsWord()
    ensures Tokens("is") == []
  {
    SingleWordTokens("is");
  }

  lemma BlueDottedWord()
    ensures Tokens("blue.") == ["blue"]
  {
    DottedWordTokens("blue");
    assert "blue" + "." == "blue.";
  }

  lemma RedWord()
    ensures Tokens("red") == ["red"]
  {
    SingleWordTokens("red");
  }

  lemma ApplesWord()
    ensures Tokens("apples") == ["apples"]
  {
    SingleWordTokens("apples");
  }

  lemma ApplesCapitalWord()
    ensures Tokens("Apples") == ["apples"]
  {
    assert Lower("Apples") == "apples";
    CleanWordTokens("Apples", "apples");
  }

  lemma AreWord()
    ensures Tokens("are") == ["are"]
  {
    SingleWordTokens("are");
  }

  lemma RedDottedWord()
    ensures Tokens("red.") == ["red"]
  {
    DottedWordTokens("red");
    assert "red" + "." == "red.";
  }

  lemma BananasCapitalWord()
    ensures Tokens("Bananas") == ["bananas"]
  {
    assert Lower("Bananas") == "bananas";
    CleanWordTokens("Bananas", "bananas");
  }

  lemma YellowDottedWord()
    ensures Tokens("yellow.") == ["yellow"]
  {
    DottedWordTokens("yellow");
    assert "yellow" + "." == "yellow.";
  }

  lemma QueryJoinTokens()
    ensures Tokens("red" + " " + "apples") == ["red", "apples"]
  {
    RedWord();
    ApplesWord();
    TokensJoin("red", "apples");
  }

  lemma SkyPairTokens()
    ensures Tokens("The" + " " + "sky") == ["the", "sky"]
  {
    TheCapitalWord();
    SkyWord();
    TokensJoin("The", "sky");
  }

  lemma SkyTripleTokens()
    ensures Tokens("The" + " " + "sky" + " " + "is") == ["the", "sky"]
  {
    SkyPairTokens();
    IsWord();
    TokensJoin("The" + " " + "sky", "is");
  }

  lemma SkyJoinTokens()
    ensures Tokens("The" + " " + "sky" + " " + "is" + " " + "blue.") == ["the", "sky", "blue"]
  {
    SkyTripleTokens();
    BlueDottedWord();
    TokensJoin("The" + " " + "sky" + " " + "is", "blue.");
  }

  lemma ApplesPairTokens()
    ensures Tokens("Apples" + " " + "are") == ["apples", "are"]
  {
    ApplesCapitalWord();
    AreWord();
    TokensJoin("Apples", "are");
  }

  lemma ApplesJoinTokens()
    ensures Tokens("Apples" + " " + "are" + " " + "red.") == ["apples", "are", "red"]
  {
    ApplesPairTokens();
    RedDottedWord();
    TokensJoin("Apples" + " " + "are", "red.");
  }

  lemma BananasPairTokens()
    ensures Tokens("Bananas" + " " + "are") == ["bananas", "are"]
  {
    BananasCapitalWord();
    AreWord();
    TokensJoin("Bananas", "are");
  }

  lemma BananasJoinTokens()
    ensures Tokens("Bananas" + " " + "are" + " " + "yellow.") == ["bananas", "are", "yellow"]
  {
    BananasPairTokens();
    YellowDottedWord();
    TokensJoin("Bananas" + " " + "are", "yellow.");
  }

  /** The query shares no token with the first and the third source. */
  lemma DisjointTokenScores()
    ensures ScoreTokens(["red", "apples"], ["the", "sky", "blue"]) == 0.0
    ensures ScoreTokens(["red", "apples"], ["bananas", "are", "yellow"]) == 0.0
  {
    AbsentEarnNothing(["red", "apples"], ["the", "sky", "blue"], 2);
    AbsentEarnNothing(["red", "apples"], ["bananas", "are", "yellow"], 2);
  }

  lemma SkyScore()
    ensures Score(Query, SkyText) == 0.0
  {
    QueryJoinTokens();
    SkyJoinTokens();
    DisjointTokenScores();
  }

  lemma BananasScore()
    ensures Score(Query, BananasText) == 0.0
  {
    QueryJoinTokens();
    BananasJoinTokens();
    DisjointTokenScores();
  }

  lemma ApplesTokenScore()
    ensures ScoreTokens(["red", "apples"], ["apples", "are", "red"]) == 2.0
  {
    var qt, ct := ["red", "apples"], ["apples", "are", "red"];
    assert ct[1..] == ["are", "red"] && ct[1..][1..] == ["red"] && ct[1..][1..][1..] == [];
    assert Count(ct, "red") == 1;
    assert Count(ct, "apples") == 1;
    assert OverlapPoints(qt, ct, 1) == 1.0;
    assert BoostPoints(qt, ct, 1) == 0.0;
  }

  /** Both query words occur once in the second source: two points and no boost. */
  lemma ApplesScore()
    ensures Score(Query, ApplesText) == 2.0
  {
    QueryJoinTokens();
    ApplesJoinTokens();
    ApplesTokenScore();
  }

  /** The three one-line documents, "The sky is blue.", "Apples are red." and "Bananas are yellow.", word by word. */
  const SkyText: string := "The" + " " + "sky" + " " + "is" + " " + "blue."
  const ApplesText: string := "Apples" + " " + "are" + " " + "red."
  const BananasText: string := "Bananas" + " " + "are" + " " + "yellow."

  const Sky: Source := Source("Doc1", "", SkyText)
  const Apples: Source := Source("Doc2", "", ApplesText)
  const Bananas: Source := Source("Doc3", "", BananasText)

  /** A one-line source is a single chunk: it is shorter than the default chunk size. */
  lemma OneLineSource(src: Source)
    requires src.content != [] && |src.content| <= Chunking.DefaultChunkSize
    ensures SourceChunks(src, Chunking.DefaultChunkSize) == [ScoredChunk(src.name, src.content, 0.0)]
  {
    Chunking.ShortText(src.content, Chunking.DefaultChunkSize, Chunking.DefaultOverlap);
  }

  /** Three one-line sources give three candidates, one per source, in order. */
  lemma ThreeOneLineSources(query: string, kb: seq<Source>)
    requires |kb| == 3
    requires forall d :: 0 <= d < 3 ==> kb[d].content != [] && |kb[d].content| <= Chunking.DefaultChunkSize
    ensures Candidates(query, kb, Chunking.DefaultChunkSize)
         == [Rescore(query, ScoredChunk(kb[0].name, kb[0].content, 0.0)),
             Rescore(query, ScoredChunk(kb[1].name, kb[1].content, 0.0)),
             Rescore(query, ScoredChunk(kb[2].name, kb[2].content, 0.0))]
  {
    OneLineSource(kb[0]);
    OneLineSource(kb[1]);
    OneLineSource(kb[2]);
    assert Pending(kb, Chunking.DefaultChunkSize, 1) == [ScoredChunk(kb[0].name, kb[0].content, 0.0)];
    assert Pending(kb, Chunking.DefaultChunkSize, 2)
        == [ScoredChunk(kb[0].name, kb[0].content, 0.0), ScoredChunk(kb[1].name, kb[1].content, 0.0)];
    assert Pending(kb, Chunking.DefaultChunkSize, 3)
        == [ScoredChunk(kb[0].name, kb[0].content, 0.0),
            ScoredChunk(kb[1].name, kb[1].content, 0.0),
            ScoredChunk(kb[2].name, kb[2].content, 0.0)];
  }

  /** When only the middle one of three candidates scores, the ranking is that candidate alone. */
  lemma OnlyMiddleRanks(cs: seq<ScoredChunk>)
    requires |cs| == 3 && cs[0].score == 0.0 && cs[1].score > 0.0 && cs[2].score == 0.0
    ensures SortByScore(Relevant(cs)) == [cs[1]]
  {
    assert Relevant(cs[1..][1..]) == [] by {
      assert cs[1..][1..][1..] == [];
    }
    assert Relevant(cs[1..]) == [cs[1]];
    assert Relevant(cs) == [cs[1]];
  }

  /** The query "red apples". */
  const Query: string := "red" + " " + "apples"
  const KnowledgeBase: seq<Source> := [Sky, Apples, Bananas]

  lemma ScenarioCandidates()
    ensures var cs := Candidates(Query, KnowledgeBase, Chunking.DefaultChunkSize);
      |cs| == 3 && cs[0].score == 0.0 && cs[1] == ScoredChunk("Doc2", ApplesText, 2.0) && cs[2].score == 0.0
  {
    ThreeOneLineSources(Query, KnowledgeBase);
    SkyScore();
    ApplesScore();
    BananasScore();
  }

  /** `retrieve("red apples", kb, { topK: 1 })` returns only the chunk of Doc2, with score 2. */
  lemma RedApplesScenario()
    ensures RetrieveSpec(Query, KnowledgeBase, Options(Some(1), None))
         == [ScoredChunk("Doc2", ApplesText, 2.0)]
  {
    ScenarioCandidates();
    OnlyMiddleRanks(Candidates(Query, KnowledgeBase, Chunking.DefaultChunkSize));
  }
}
