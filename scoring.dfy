/**
 * The relevance score of the retrieval engine (`RagEngine.calculateScore`):
 * both strings go through the same tokenizer (`normalize`), then every
 * query token found among the chunk's tokens earns one point, and every
 * query token that occurs `c > 1` times in the chunk earns `(c - 1) * 0.2`
 * more.  Scores are exact reals here.
 */
module Scoring {
  import opened Strings

  // ----- normalize: lower-case, strip, split, drop short words -----

  /** JavaScript's `\w`: ASCII letters, digits and underscore. */
  predicate IsWordChar(c: char) {
    'a' <= c <= 'z' || 'A' <= c <= 'Z' || '0' <= c <= '9' || c == '_'
  }

  predicate IsUpper(c: char) {
    'A' <= c <= 'Z'
  }

  /** `toLowerCase` on one ASCII character. */
  function LowerChar(c: char): (r: char)
    ensures !IsUpper(r)
    ensures IsWordChar(r) == IsWordChar(c) && IsSpace(r) == IsSpace(c)
  {
    if IsUpper(c) then (c as int + 32) as char else c
  }

  function Lower(s: string): (r: string)
    ensures |r| == |s|
  {
    seq(|s|, i requires 0 <= i < |s| => LowerChar(s[i]))
  }

  /** What `replace(/[^\w\s]/g, '')` keeps. */
  predicate Kept(c: char) {
    IsWordChar(c) || IsSpace(c)
  }

  /** `replace(/[^\w\s]/g, '')`: every character that is neither a word character nor whitespace is deleted. */
  function Strip(s: string): (r: string)
    ensures |r| <= |s|
  {
    if s == [] then [] else (if Kept(s[0]) then [s[0]] else []) + Strip(s[1..])
  }

  /** The run of non-whitespace characters at the front of `s`. */
  function LeadingWord(s: string): (w: string)
    ensures |w| <= |s| && w == s[..|w|]
    ensures |w| == |s| || IsSpace(s[|w|])
    ensures forall c :: c in w ==> !IsSpace(c)
  {
    if s == [] || IsSpace(s[0]) then [] else [s[0]] + LeadingWord(s[1..])
  }

  /** `split(/\s+/)` without the empty pieces at either end (the length filter drops those anyway). */
  function Words(s: string): (ws: seq<string>)
    decreases |s|
  {
    if s == [] then []
    else if IsSpace(s[0]) then Words(s[1..])
    else
      var w := LeadingWord(s);
      [w] + Words(s[|w|..])
  }

  /** `filter(w => w.length > 2)`. */
  function Long(ws: seq<string>): (r: seq<string>)
    ensures |r| <= |ws|
  {
    if ws == [] then [] else (if |ws[0]| > 2 then [ws[0]] else []) + Long(ws[1..])
  }

  /** The inner `normalize` of `calculateScore`: only words longer than two characters survive. */
  function Tokens(s: string): (ts: seq<string>)
    ensures forall i :: 0 <= i < |ts| ==> |ts[i]| > 2
  {
    LongShape(Words(Strip(Lower(s))));
    Long(Words(Strip(Lower(s))))
  }

  lemma {:induction false} StripShape(s: string)
    ensures forall c :: c in Strip(s) ==> c in s && Kept(c)
  {
    if s != [] {
      StripShape(s[1..]);
    }
  }

  lemma {:induction false} WordsShape(s: string)
    ensures forall w :: w in Words(s) ==> |w| > 0 && forall c :: c in w ==> c in s && !IsSpace(c)
    decreases |s|
  {
    if s != [] {
      if IsSpace(s[0]) {
        WordsShape(s[1..]);
      } else {
        var w := LeadingWord(s);
        WordsShape(s[|w|..]);
      }
    }
  }

  lemma {:induction false} LongShape(ws: seq<string>)
    ensures forall w :: w in Long(ws) ==> w in ws && |w| > 2
  {
    if ws != [] {
      LongShape(ws[1..]);
    }
  }

  /** Every token is longer than two characters and made of lower-case word characters only. */
  lemma TokenShape(s: string)
    ensures forall t :: t in Tokens(s) ==>
              |t| > 2 && forall c :: c in t ==> IsWordChar(c) && !IsUpper(c)
  {
    var low := Lower(s);
    forall c | c in low ensures !IsUpper(c) {
      var i :| 0 <= i < |low| && low[i] == c;
    }
    StripShape(low);
    WordsShape(Strip(low));
    LongShape(Words(Strip(low)));
  }

  lemma {:induction false} BlankWords(s: string)
    requires IsBlank(s)
    ensures Words(s) == []
    decreases |s|
  {
    if s != [] {
      BlankWords(s[1..]);
    }
  }

  /** A string of whitespace only has no tokens, so as a query it scores nothing against any chunk. */
  lemma BlankTokens(s: string)
    requires IsBlank(s)
    ensures Tokens(s) == []
    ensures forall chunk :: Score(s, chunk) == 0.0
  {
    var low := Lower(s);
    StripShape(low);
    var st := Strip(low);
    forall i | 0 <= i < |st| ensures IsSpace(st[i]) {
      assert st[i] in st;
      var j :| 0 <= j < |low| && low[j] == st[i];
    }
    BlankWords(st);
  }

  lemma {:induction false} StripConcat(a: string, b: string)
    ensures Strip(a + b) == Strip(a) + Strip(b)
  {
    if a != [] {
      StripConcat(a[1..], b);
      assert (a + b)[1..] == a[1..] + b;
    } else {
      assert a + b == b;
    }
  }

  lemma {:induction false} LongConcat(a: seq<string>, b: seq<string>)
    ensures Long(a + b) == Long(a) + Long(b)
  {
    if a != [] {
      LongConcat(a[1..], b);
      assert (a + b)[1..] == a[1..] + b;
    } else {
      assert a + b == b;
    }
  }

  lemma {:induction false} LeadingWordStopsAtSpace(a: string, c: char, b: string)
    requires IsSpace(c)
    ensures LeadingWord(a + [c] + b) == LeadingWord(a)
  {
    if a != [] && !IsSpace(a[0]) {
      LeadingWordStopsAtSpace(a[1..], c, b);
      assert (a + [c] + b)[1..] == a[1..] + [c] + b;
    }
  }

  /** Splitting two texts joined by whitespace gives the words of each, in order. */
  lemma {:induction false} WordsJoin(a: string, c: char, b: string)
    requires IsSpace(c)
    ensures Words(a + [c] + b) == Words(a) + Words(b)
    decreases |a|
  {
    var s := a + [c] + b;
    if a == [] {
      assert s[1..] == b;
    } else if IsSpace(a[0]) {
      assert Words(s) == Words(a[1..] + [c] + b) by {
        assert s[0] == a[0] && s[1..] == a[1..] + [c] + b;
      }
      WordsJoin(a[1..], c, b);
    } else {
      var w := LeadingWord(a);
      assert Words(s) == [w] + Words(a[|w|..] + [c] + b) by {
        LeadingWordStopsAtSpace(a, c, b);
        assert s[0] == a[0] && s[|w|..] == a[|w|..] + [c] + b;
      }
      WordsJoin(a[|w|..], c, b);
    }
  }

  /** The tokens of `a + " " + b` are the tokens of `a` followed by those of `b`. */
  lemma TokensJoin(a: string, b: string)
    ensures Tokens(a + " " + b) == Tokens(a) + Tokens(b)
  {
    var la, lb := Lower(a), Lower(b);
    assert Lower(a + " " + b) == la + [' '] + lb;
    StripConcat(la + [' '], lb);
    StripConcat(la, [' ']);
    assert Strip([' ']) == [' '] + Strip([]);
    var sa, sb := Strip(la), Strip(lb);
    assert Strip(la + [' '] + lb) == sa + [' '] + sb;
    WordsJoin(sa, ' ', sb);
    LongConcat(Words(sa), Words(sb));
  }

  // ----- the score -----

  /** `chunkTokens.filter(c => c === t).length`. */
  function Count(ts: seq<string>, t: string): (n: nat)
    ensures n <= |ts|
    ensures n > 0 <==> t in ts
  {
    if ts == [] then 0 else (if ts[0] == t then 1 else 0) + Count(ts[1..], t)
  }

  /** The frequency boost for a token that occurs `count` times in the chunk. */
  function Boost(count: nat): (r: real)
    ensures r >= 0.0
    ensures r > 0.0 <==> count > 1
  {
    if count > 1 then (count - 1) as real * 0.2 else 0.0
  }

  /** Step 1 of the score over the first `n` query tokens: one point per token (duplicates included) present in the chunk. */
  function OverlapPoints(qt: seq<string>, ct: seq<string>, n: nat): (r: real)
    requires n <= |qt|
    ensures r >= 0.0
  {
    if n == 0 then 0.0
    else OverlapPoints(qt, ct, n - 1) + (if qt[n - 1] in ct then 1.0 else 0.0)
  }

  /** Step 2 of the score over the first `n` query tokens: the frequency boost of each (duplicates included). */
  function BoostPoints(qt: seq<string>, ct: seq<string>, n: nat): (r: real)
    requires n <= |qt|
    ensures r >= 0.0
  {
    if n == 0 then 0.0
    else BoostPoints(qt, ct, n - 1) + Boost(Count(ct, qt[n - 1]))
  }

  /** The score of the chunk's tokens against the query's tokens. */
  function ScoreTokens(qt: seq<string>, ct: seq<string>): real {
    if qt == [] || ct == [] then 0.0 else OverlapPoints(qt, ct, |qt|) + BoostPoints(qt, ct, |qt|)
  }

  /** `calculateScore(query, chunk)`, as a function of its inputs. */
  function Score(query: string, chunk: string): (score: real)
    ensures score >= 0.0
    ensures query == [] || chunk == [] ==> score == 0.0
  {
    if query == [] || chunk == [] then 0.0 else ScoreTokens(Tokens(query), Tokens(chunk))
  }

  /** Some query token occurs among the chunk's tokens. */
  predicate SharesToken(query: string, chunk: string) {
    exists i :: 0 <= i < |Tokens(query)| && Tokens(query)[i] in Tokens(chunk)
  }

  /** The overlap is positive exactly when one of the first `n` query tokens occurs in the chunk. */
  lemma {:induction false} OverlapPositiveIff(qt: seq<string>, ct: seq<string>, n: nat)
    requires n <= |qt|
    ensures OverlapPoints(qt, ct, n) > 0.0 <==> exists i :: 0 <= i < n && qt[i] in ct
    decreases n
  {
    if n > 0 {
      OverlapPositiveIff(qt, ct, n - 1);
    }
  }

  /** A boost is only ever earned by a query token that occurs in the chunk. */
  lemma {:induction false} BoostNeedsOverlap(qt: seq<string>, ct: seq<string>, n: nat)
    requires n <= |qt|
    ensures BoostPoints(qt, ct, n) > 0.0 ==> exists i :: 0 <= i < n && qt[i] in ct
    decreases n
  {
    if n > 0 {
      BoostNeedsOverlap(qt, ct, n - 1);
    }
  }

  /** The two accumulation loops of `calculateScore`. */
  method CalculateScore(query: string, chunk: string) returns (score: real)
    ensures score == Score(query, chunk)
  {
    if query == [] || chunk == [] {
      return 0.0;
    }
    var queryTokens := Tokens(query);
    var chunkTokens := Tokens(chunk);
    if |queryTokens| == 0 || |chunkTokens| == 0 {
      return 0.0;
    }
    score := 0.0;
    var i := 0;
    while i < |queryTokens|
      invariant 0 <= i <= |queryTokens|
      invariant score == OverlapPoints(queryTokens, chunkTokens, i)
    {
      if queryTokens[i] in chunkTokens {
        score := score + 1.0;
      }
      i := i + 1;
    }
    ghost var overlap := score;
    i := 0;
    while i < |queryTokens|
      invariant 0 <= i <= |queryTokens|
      invariant score == overlap + BoostPoints(queryTokens, chunkTokens, i)
    {
      var count := Count(chunkTokens, queryTokens[i]);
      if count > 1 {
        score := score + (count - 1) as real * 0.2;
      }
      i := i + 1;
    }
  }

  /** The score is never negative. */
  lemma ScoreNonNegative(query: string, chunk: string)
    ensures Score(query, chunk) >= 0.0
  {
  }

  /** The score is positive exactly when the query and the chunk share a token. */
  lemma ScorePositiveIff(query: string, chunk: string)
    ensures Score(query, chunk) > 0.0 <==> SharesToken(query, chunk)
  {
    if query == [] || chunk == [] {
      assert Lower([]) == [];
      assert Tokens([]) == [];
    } else {
      var qt, ct := Tokens(query), Tokens(chunk);
      OverlapPositiveIff(qt, ct, |qt|);
      BoostNeedsOverlap(qt, ct, |qt|);
    }
  }

  /** The overlap of `a + b` over `|a| + n` tokens is the overlap of all of `a` plus that of `n` tokens of `b`. */
  lemma {:induction false} OverlapAppend(a: seq<string>, b: seq<string>, ct: seq<string>, n: nat)
    requires n <= |b|
    ensures OverlapPoints(a + b, ct, |a| + n) == OverlapPoints(a, ct, |a|) + OverlapPoints(b, ct, n)
    decreases n
  {
    if n == 0 {
      OverlapPrefix(a, b, ct, |a|);
    } else {
      OverlapAppend(a, b, ct, n - 1);
      assert (a + b)[|a| + n - 1] == b[n - 1];
    }
  }

  /** Only the first `n` tokens matter to the overlap over `n` tokens. */
  lemma {:induction false} OverlapPrefix(a: seq<string>, b: seq<string>, ct: seq<string>, n: nat)
    requires n <= |a|
    ensures OverlapPoints(a + b, ct, n) == OverlapPoints(a, ct, n)
    decreases n
  {
    if n > 0 {
      OverlapPrefix(a, b, ct, n - 1);
      assert (a + b)[n - 1] == a[n - 1];
    }
  }

  /** The boost of `a + b` over `|a| + n` tokens is the boost of all of `a` plus that of `n` tokens of `b`. */
  lemma {:induction false} BoostAppend(a: seq<string>, b: seq<string>, ct: seq<string>, n: nat)
    requires n <= |b|
    ensures BoostPoints(a + b, ct, |a| + n) == BoostPoints(a, ct, |a|) + BoostPoints(b, ct, n)
    decreases n
  {
    if n == 0 {
      BoostPrefix(a, b, ct, |a|);
    } else {
      BoostAppend(a, b, ct, n - 1);
      assert (a + b)[|a| + n - 1] == b[n - 1];
    }
  }

  /** Only the first `n` tokens matter to the boost over `n` tokens. */
  lemma {:induction false} BoostPrefix(a: seq<string>, b: seq<string>, ct: seq<string>, n: nat)
    requires n <= |a|
    ensures BoostPoints(a + b, ct, n) == BoostPoints(a, ct, n)
    decreases n
  {
    if n > 0 {
      BoostPrefix(a, b, ct, n - 1);
      assert (a + b)[n - 1] == a[n - 1];
    }
  }

  /** Query tokens absent from the chunk earn neither overlap nor boost. */
  lemma {:induction false} AbsentEarnNothing(b: seq<string>, ct: seq<string>, n: nat)
    requires n <= |b|
    requires forall i :: 0 <= i < |b| ==> b[i] !in ct
    ensures OverlapPoints(b, ct, n) == 0.0 && BoostPoints(b, ct, n) == 0.0
    decreases n
  {
    if n > 0 {
      AbsentEarnNothing(b, ct, n - 1);
    }
  }

  /**
   * Appending words to the query whose tokens do not occur in the chunk
   * leaves the score unchanged.
   */
  lemma AbsentTokensIgnored(query: string, extra: string, chunk: string)
    requires forall t :: t in Tokens(extra) ==> t !in Tokens(chunk)
    ensures Score(query + " " + extra, chunk) == Score(query, chunk)
  {
    if chunk != [] {
      TokensJoin(query, extra);
      var qt, et, ct := Tokens(query), Tokens(extra), Tokens(chunk);
      assert Score(query + " " + extra, chunk) == ScoreTokens(qt + et, ct);
      OverlapAppend(qt, et, ct, |et|);
      BoostAppend(qt, et, ct, |et|);
      AbsentEarnNothing(et, ct, |et|);
      if query == [] {
        assert Lower([]) == [];
        assert qt == [];
        assert qt + et == et;
      } else {
        assert Score(query, chunk) == ScoreTokens(qt, ct);
      }
    }
  }

  lemma {:induction false} StripKeepsKept(s: string)
    requires forall c :: c in s ==> Kept(c)
    ensures Strip(s) == s
  {
    if s != [] {
      StripKeepsKept(s[1..]);
    }
  }

  lemma {:induction false} LeadingWordWhole(s: string)
    requires forall c :: c in s ==> !IsSpace(c)
    ensures LeadingWord(s) == s
  {
    if s != [] {
      LeadingWordWhole(s[1..]);
    }
  }

  /** Every character is a word character and none is upper-case (checked character by character). */
  predicate LowerWord(w: string) {
    w == [] || (IsWordChar(w[0]) && !IsUpper(w[0]) && LowerWord(w[1..]))
  }

  lemma {:induction false} LowerWordChars(w: string)
    requires LowerWord(w)
    ensures forall i :: 0 <= i < |w| ==> IsWordChar(w[i]) && !IsUpper(w[i])
  {
    if w != [] {
      LowerWordChars(w[1..]);
      assert forall i :: 1 <= i < |w| ==> w[i] == w[1..][i - 1];
    }
  }

  lemma LowerWordPipeline(w: string)
    requires w != [] && LowerWord(w)
    ensures Words(Strip(Lower(w))) == [w]
  {
    LowerWordChars(w);
    assert Lower(w) == w;
    StripKeepsKept(w);
    LeadingWordWhole(w);
    assert w[|w|..] == [];
  }

  /** A single lower-case word is one token when longer than two characters, and none otherwise. */
  lemma SingleWordTokens(w: string)
    requires w != [] && LowerWord(w)
    ensures Tokens(w) == if |w| > 2 then [w] else []
  {
    LowerWordPipeline(w);
    assert Long([w]) == (if |w| > 2 then [w] else []) + Long([]);
  }

  /** A string that the first two steps of the tokenizer turn into one lower-case word tokenizes to that word, if long enough. */
  lemma CleanWordTokens(s: string, w: string)
    requires w != [] && LowerWord(w) && Strip(Lower(s)) == w
    ensures Tokens(s) == if |w| > 2 then [w] else []
  {
    SingleWordTokens(w);
    LowerWordChars(w);
    assert Lower(w) == w;
    StripKeepsKept(w);
  }

  lemma ShortWordTokens()
    ensures Tokens("I") == []
  {
    assert Lower("I") == "i";
    SingleWordTokens("i");
  }

  lemma LikeTokens()
    ensures Tokens("like") == ["like"]
  {
    SingleWordTokens("like");
  }

  lemma AppleTokens()
    ensures Tokens("apple") == ["apple"]
  {
    SingleWordTokens("apple");
  }

  lemma PieTokens()
    ensures Tokens("pie") == ["pie"]
  {
    SingleWordTokens("pie");
  }

  lemma FirstTwoWordsTokens()
    ensures Tokens("I" + " " + "like") == ["like"]
  {
    ShortWordTokens();
    LikeTokens();
    TokensJoin("I", "like");
  }

  lemma FirstThreeWordsTokens()
    ensures Tokens("I" + " " + "like" + " " + "apple") == ["like", "apple"]
  {
    FirstTwoWordsTokens();
    AppleTokens();
    TokensJoin("I" + " " + "like", "apple");
  }

  /** The sentence of the scoring scenario, "I like apple pie", word by word. */
  const Sentence: string := "I" + " " + "like" + " " + "apple" + " " + "pie"

  /** The tokens of the scenario sentence: "I" is too short, the rest are kept. */
  lemma SentenceTokens()
    ensures Tokens(Sentence) == ["like", "apple", "pie"]
  {
    FirstThreeWordsTokens();
    PieTokens();
    TokensJoin("I" + " " + "like" + " " + "apple", "pie");
  }

  lemma AppleAgainstSentence()
    ensures ScoreTokens(["apple"], ["like", "apple", "pie"]) == 1.0
  {
    var ct := ["like", "apple", "pie"];
    assert ct[1..] == ["apple", "pie"] && ct[1..][1..] == ["pie"] && ct[1..][1..][1..] == [];
    assert Count(ct, "apple") == 1;
  }

  /** `calculateScore("apple", "I like apple pie")` is exactly 1: one overlap, no frequency boost. */
  lemma ExactMatchScenario()
    ensures Score("apple", Sentence) == 1.0
  {
    SentenceTokens();
    AppleTokens();
    AppleAgainstSentence();
  }

  lemma BananaTokens()
    ensures Tokens("banana") == ["banana"]
  {
    SingleWordTokens("banana");
  }

  /** `calculateScore("banana", "I like apple pie")` is 0. */
  lemma NoMatchScenario()
    ensures Score("banana", Sentence) == 0.0
  {
    SentenceTokens();
    BananaTokens();
    ScorePositiveIff("banana", Sentence);
    ScoreNonNegative("banana", Sentence);
  }
}
