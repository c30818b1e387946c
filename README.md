# Prompt Builder core, modelled in Dafny

Prompt Builder is a desktop tool for writing prompts for language models.
A prompt is put together from these parts:
- an agent identity (a role and a goal);
- a list of topics;
- knowledge documents;
- few-shot examples;
- a reasoning configuration;
- the instructions, which may contain `{{variable}}` placeholders.

The preview pane renders all of these as one text.

The model covers the parts of the program that compute something:

- **The retrieval engine** (`src/utils/RagEngine.js`):
  - the overlapping, word-boundary chunker `chunkText`;
  - the lexical scorer `calculateScore` and its `normalize` tokenizer;
  - the `retrieve` pipeline, which chunks every source, scores every chunk, drops the zero scores, sorts by score and keeps the first `topK`.
- **Preview rendering** (`getPreviewText` in `src/components/PreviewPane.jsx`):
  - each section and the condition under which it appears;
  - the retrieved-knowledge mode and the plain-listing mode of the knowledge section;
  - the reasoning blocks;
  - the final substitution of every variable.
- **Variables** (`src/App.jsx`):
  - extraction of the `{{name}}` placeholders when the instructions change or a template is loaded;
  - `handleVariableChange`.
- **The topic editor** (`src/components/TopicManager.jsx`):
  - the form handlers and the instruction/action list editing;
  - saving;
  - loading the three standard topics without duplicating titles;
  - removing a topic, and toggling its selection.
- **The reasoning panel** (`src/components/ReasoningPanel.jsx`): the effort change and the strategy toggle.

Modules, one per concern:

| module | file | what it holds |
|---|---|---|
| `Wrappers` | wrappers.dfy | `Option` |
| `Strings` | strings.dfy | JavaScript whitespace and `trim`, decimal rendering of numbers, `join` |
| `Chunking` | chunking.dfy | `chunkText` |
| `Scoring` | scoring.dfy | `normalize` and `calculateScore` |
| `Retrieval` | retrieval.dfy | `retrieve` |
| `Scenarios` | scenarios.dfy | the retrieval scenario of `test/quality-check.js` |
| `Variables` | variables.dfy | the variable store and placeholder extraction of `App.jsx` |
| `Substitution` | substitution.dfy | the `replace` loop at the end of `getPreviewText` |
| `Preview` | preview.dfy | `getPreviewText` |
| `Topics` | topics.dfy | `TopicManager` |
| `Reasoning` | reasoning.dfy | `ReasoningPanel` |

Code that works by loops and accumulation is a `method` proved against a specification function:
- `Chunking.ChunkText`
- `Scoring.CalculateScore`
- `Retrieval.Retrieve` and its passes
- `Variables.ExtractVariables`
- `Preview.PreviewText` and its `Append…` steps
- `Preview.SubstituteVariables`

React state updates (`setX(prev => …)`, `onChange(…)`) produce a new value from the old one. They are modelled as functions from the old state to the new state.

Representation choices:
- Scores are exact `real`s.
- Strings are `seq<char>`.
- A JavaScript object used as a dictionary of variables is an ordered list of bindings. Its order is the insertion order, which decides the order of substitution.

## Model

| member | source | states |
|---|---|---|
| Strings.Trim | src/App.jsx:35 | `trim()` leaves no whitespace at either end and never lengthens the text |
| Strings.TrimIsSlice | src/App.jsx:35 | the trimmed text is a contiguous slice of the input with only whitespace cut from both sides |
| Strings.TrimBlank | src/components/TopicManager.jsx:73 | a text trims to empty exactly when it is all whitespace, which is the `!title.trim()` test |
| Strings.TrimNoop | src/components/TopicManager.jsx:78 | text with no whitespace at either end is unchanged by `trim()` |
| Strings.DecimalRoundTrip | src/components/PreviewPane.jsx:46 | the decimal rendering used for example numbers reads back as the same number |
| Chunking.LastIndexOf | src/utils/RagEngine.js:26-27 | `lastIndexOf(c, from)` is -1 or the last position at or before `from` holding `c` |
| Chunking.BreakPoint | src/utils/RagEngine.js:26-29 | the larger of the last space and the last newline at or before `end` is -1 or a break with no break after it up to `end` |
| Chunking.CutEnd | src/utils/RagEngine.js:22-34 | the end of a chunk stays within `chunkSize` of the cursor; it is cut at the last break after the cursor when there is one, and otherwise at `start + chunkSize` |
| Chunking.NextCursor | src/utils/RagEngine.js:37 | the next cursor always advances: it is `end - overlap` when that moves forward, and otherwise one past the cursor |
| Chunking.ChunkText | src/utils/RagEngine.js:14-41 | the chunking loop returns exactly `Chunks(text, chunkSize, overlap)` |
| Chunking.ShortText | src/utils/RagEngine.js:15-16 | empty text gives no chunks; text of at most `chunkSize` is one chunk, itself untrimmed; any non-empty text gives at least one chunk |
| Chunking.CursorsIncrease | src/utils/RagEngine.js:21-38 | the cursors of the loop start at the first position, stay inside the text and strictly increase, so the loop ends |
| Chunking.ChunksAreTrimmedWindows | src/utils/RagEngine.js:36 | chunk `i` is the trimmed substring from cursor `i` to its cut end, and that window is at most `chunkSize` long |
| Chunking.ChunkLengthBound | src/utils/RagEngine.js:14-41 | no chunk is longer than `chunkSize` |
| Chunking.StallCondition | src/utils/RagEngine.js:29-37 | with `overlap < chunkSize`, the source's `end - overlap` fails to advance exactly when the break point lies after the cursor but within `overlap` of it |
| Chunking.TrailingFragment | src/utils/RagEngine.js:36-37 | when the rest of the text fits in one chunk but `end - overlap` is still inside the text, a second, overlapping tail chunk follows |
| Chunking.SourceLoopDiverges | src/utils/RagEngine.js:21-38 | as written, 511 characters with a single space at index 10 (size 500, overlap 50) send the cursor to -40 and keep it there while it is below the length: the loop never ends |
| Chunking.SourceNext | src/utils/RagEngine.js:21-37 | the loop's step as written never moves past `end - overlap` from a non-negative cursor, is exactly `start + chunkSize - overlap` once the window reaches the end of the text, and (with `overlap < chunkSize`) can stall only when a break point was searched for |
| Chunking.NextCursorAgrees | src/utils/RagEngine.js:37 | the guarded cursor equals the source's `end - overlap` whenever that advances, and is the cursor plus one otherwise |
| Chunking.GuardedChunkingOfDivergentText | src/utils/RagEngine.js:21-38 | on the diverging text, the guarded loop emits the first ten characters and moves on to position 1 |
| Chunking.HelloWorldScenario | test/quality-check.js:32-38 | chunking "Hello world. This is a test." with size 10 and overlap 2 gives a non-empty list whose first chunk has at most 10 characters |
| Scoring.Tokens | src/utils/RagEngine.js:53 | `normalize` keeps only words longer than two characters |
| Scoring.LowerChar | src/utils/RagEngine.js:53 | lower-casing leaves no capital and keeps word and whitespace characters as they were |
| Scoring.StripShape | src/utils/RagEngine.js:53 | every character kept is a word or whitespace character of the input |
| Scoring.WordsShape | src/utils/RagEngine.js:53 | the pieces of `split(/\s+/)` that count are non-empty and free of whitespace |
| Scoring.LongShape | src/utils/RagEngine.js:53 | `filter(w => w.length > 2)` keeps only words of the input longer than two characters |
| Scoring.TokenShape | src/utils/RagEngine.js:53 | every token of `normalize` is longer than two characters, made of word characters, and lower case |
| Scoring.BlankTokens | src/utils/RagEngine.js:51-57 | whitespace has no tokens, so as a query it scores 0 against every chunk |
| Scoring.StripConcat | src/utils/RagEngine.js:53 | stripping works character by character, so it distributes over concatenation |
| Scoring.WordsJoin | src/utils/RagEngine.js:53 | splitting text joined by one whitespace character gives the words of each side in turn |
| Scoring.TokensJoin | src/utils/RagEngine.js:53 | the tokens of `a + " " + b` are those of `a` followed by those of `b` |
| Scoring.Count | src/utils/RagEngine.js:72 | the filtered count is at most the number of tokens, and positive exactly when the token occurs |
| Scoring.Boost | src/utils/RagEngine.js:73-75 | the frequency boost `(count - 1) * 0.2` is never negative and is positive exactly when the count exceeds 1 |
| Scoring.OverlapPositiveIff | src/utils/RagEngine.js:63-67 | the overlap points are positive exactly when some query token occurs in the chunk's tokens |
| Scoring.BoostNeedsOverlap | src/utils/RagEngine.js:71-76 | a positive boost needs a query token that occurs in the chunk |
| Scoring.Score | src/utils/RagEngine.js:50-81 | a score is never negative, and is 0 when the query or the chunk is empty |
| Scoring.CalculateScore | src/utils/RagEngine.js:50-81 | the two `forEach` passes compute exactly `Score(query, chunk)`, whose properties the lemmas below state |
| Scoring.ScoreNonNegative | src/utils/RagEngine.js:59-80 | a score is never negative |
| Scoring.ScorePositiveIff | src/utils/RagEngine.js:59-80 | a score is positive exactly when the query and the chunk share a token |
| Scoring.OverlapAppend | src/utils/RagEngine.js:63-67 | the overlap points of two token lists in a row add up |
| Scoring.BoostAppend | src/utils/RagEngine.js:71-76 | the boost points of two token lists in a row add up |
| Scoring.AbsentEarnNothing | src/utils/RagEngine.js:63-76 | query tokens absent from the chunk earn neither overlap nor boost |
| Scoring.AbsentTokensIgnored | src/utils/RagEngine.js:50-81 | adding query words whose tokens are all absent from the chunk leaves the score unchanged |
| Scoring.CleanWordTokens | src/utils/RagEngine.js:53 | a text that normalizes to one lower-case word has that word as its only token when it is longer than two characters, and no token otherwise |
| Scoring.SentenceTokens | test/quality-check.js:42 | "I like apple pie" has the tokens like, apple, pie, in that order |
| Scoring.ExactMatchScenario | test/quality-check.js:41-44 | "apple" against "I like apple pie" scores exactly 1: one overlap and no boost |
| Scoring.NoMatchScenario | test/quality-check.js:47-50 | "banana" against "I like apple pie" scores 0 |
| Retrieval.Take | src/utils/RagEngine.js:119 | `slice(0, topK)` is a prefix of the ranking |
| Retrieval.AppendSourceChunks | src/utils/RagEngine.js:97-105 | one source appends its chunks, each named after it and scored 0, or nothing when its content is empty |
| Retrieval.GenerateChunks | src/utils/RagEngine.js:96-106 | the chunking pass collects the chunks of every source, in source order and then chunk order |
| Retrieval.ScoreChunks | src/utils/RagEngine.js:109-111 | the scoring pass sets every chunk's score to its score against the query and changes nothing else |
| Retrieval.Retrieve | src/utils/RagEngine.js:90-120 | `retrieve` returns exactly `RetrieveSpec`, whose properties `RetrieveCorrect` and `RetrieveNothing` state |
| Retrieval.SourceContributes | src/utils/RagEngine.js:97 | a source contributes chunks exactly when its content is non-empty |
| Retrieval.PendingProvenance | src/utils/RagEngine.js:96-106 | every generated chunk scores 0 and names a source whose content chunks to it |
| Retrieval.CandidateProvenance | src/utils/RagEngine.js:108-111 | every scored chunk carries its own score against the query and names the source it was cut from |
| Retrieval.RelevantMembers | src/utils/RagEngine.js:115 | the filter keeps exactly the chunks with a positive score |
| Retrieval.InsertPermutes | src/utils/RagEngine.js:116 | inserting into the sorted list adds exactly that one element |
| Retrieval.InsertSorted | src/utils/RagEngine.js:116 | inserting into a list sorted by descending score keeps it sorted |
| Retrieval.SortByScoreCorrect | src/utils/RagEngine.js:116 | `sort((a, b) => b.score - a.score)` orders by non-increasing score and is a permutation of its input |
| Retrieval.InsertStable | src/utils/RagEngine.js:116 | insertion puts the new chunk ahead of the chunks of equal score and keeps their order |
| Retrieval.SortByScoreStable | src/utils/RagEngine.js:116 | the sort is stable: the chunks of each score keep their generation order |
| Retrieval.RelevantStable | src/utils/RagEngine.js:115 | the filter keeps the order of the chunks of each positive score |
| Retrieval.RankedCorrect | src/utils/RagEngine.js:113-116 | the ranking is sorted, a permutation of the positive-scored candidates, holds exactly those, and keeps generation order among equal scores |
| Retrieval.RetrieveCorrect | src/utils/RagEngine.js:90-120 | the result is a prefix of the ranking of length `min(topK, ranking)`, all of it when `topK` is undefined; it is sorted; nothing left out outscores anything kept; every entry has a positive score that is its own, and names its source |
| Retrieval.RetrieveNothing | src/utils/RagEngine.js:91-97 | no query, no sources, or sources that are all empty retrieve nothing |
| Retrieval.NoTokensNothing | src/utils/RagEngine.js:57 | a query without tokens retrieves nothing |
| Retrieval.NothingRelevant | src/utils/RagEngine.js:115 | chunks that all score 0 are all filtered out |
| Scenarios.DisjointTokenScores | test/quality-check.js:55-59 | the query's tokens earn nothing against the tokens of the first and third sources |
| Scenarios.ApplesScore | test/quality-check.js:56-59 | "red apples" against "Apples are red." scores 2 |
| Scenarios.SkyScore | test/quality-check.js:55-59 | "red apples" against "The sky is blue." scores 0 |
| Scenarios.BananasScore | test/quality-check.js:57-59 | "red apples" against "Bananas are yellow." scores 0 |
| Scenarios.OneLineSource | src/utils/RagEngine.js:97-105 | a source no longer than the default chunk size is a single chunk holding its content |
| Scenarios.ThreeOneLineSources | src/utils/RagEngine.js:96-111 | three one-line sources give three scored candidates, one per source, in order |
| Scenarios.OnlyMiddleRanks | src/utils/RagEngine.js:114-116 | when only the middle of three candidates scores, the ranking is that candidate alone |
| Scenarios.ScenarioCandidates | test/quality-check.js:53-62 | the scenario's candidates are Doc1 at 0, Doc2's whole line at 2, and Doc3 at 0 |
| Scenarios.RedApplesScenario | test/quality-check.js:53-62 | `retrieve("red apples", kb, { topK: 1 })` is exactly one result: Doc2's line with score 2 |
| Variables.Lookup | src/App.jsx:36 | `variables[name]` is undefined exactly when no binding has that key, and otherwise is the value of a binding with that key |
| Variables.PutKeys | src/App.jsx:43-46 | setting a key keeps the key order and appends the key when it is new |
| Variables.PutBindings | src/App.jsx:43-46 | after setting, the bindings are the new one plus the old ones with other keys |
| Variables.PutDistinct | src/App.jsx:43-46 | setting a key keeps the keys distinct |
| Variables.FirstClose | src/App.jsx:30 | `[^}]+` runs up to the first `}` after the opening braces |
| Variables.MatchAtIff | src/App.jsx:30 | the regular expression matches at `i` with closing braces at `j` exactly when `{{ name }}` stands there with no `}` inside the name |
| Variables.Scan | src/App.jsx:30-31 | every name captured by `matchAll` is non-empty and holds no `}`, as `[^}]+` demands |
| Variables.ScanFindsPlaceholders | src/App.jsx:30-31 | every match of `matchAll` is the inside of a placeholder of the text |
| Variables.ScanEmptyIff | src/App.jsx:30-31 | `matchAll` finds nothing exactly when the text holds no placeholder |
| Variables.DedupCorrect | src/App.jsx:34-37 | assigning names into an object in order keeps each name once, at its first occurrence |
| Variables.ExtractVariables | src/App.jsx:30-39 | the new variables have the trimmed placeholder names as keys, each once and in order of first occurrence, and each keeps its previous value or is `''` |
| Variables.HandlePromptChange | src/App.jsx:25-40 | editing the instructions re-extracts the variables, keeping the values of names still in use |
| Variables.ExtractedVariables | src/App.jsx:34-37 | the extracted keys are distinct, are exactly the names in the text, and a name with a previous value keeps it |
| Variables.PutLookup | src/App.jsx:43-46 | after setting a key it reads the new value, and every other key reads what it did before |
| Variables.HandleVariableChange | src/App.jsx:42-47 | `handleVariableChange` makes the name read the value and leaves every other name's value as it was, whether or not the keys were distinct |
| Variables.VariableChangeSetsOneKey | src/App.jsx:42-47 | `handleVariableChange` sets one key to the value and leaves every other lookup unchanged |
| Variables.HandleLoadTemplate | src/App.jsx:49-77 | loading a template sets the prompt (and, for an object template, the role and goal, defaulting to `''`); the variables become its placeholder names, all with empty values |
| Reasoning.ToggleStrategy | src/components/ReasoningPanel.jsx:8-17 | `handleStrategyChange` keeps the effort, always leaves a list, and afterwards the strategy is selected exactly when it was not before |
| Reasoning.WithoutCounts | src/components/ReasoningPanel.jsx:12 | the filter removes every copy of the strategy and nothing else |
| Reasoning.WithoutAbsent | src/components/ReasoningPanel.jsx:12 | filtering out an absent strategy changes nothing |
| Reasoning.ToggleStrategyEffect | src/components/ReasoningPanel.jsx:8-17 | toggling keeps the effort; an absent strategy is appended at the end; a present one is filtered out of the list, every copy of it, with every other strategy kept as often as it was |
| Reasoning.ToggleRemovesInPlace | src/components/ReasoningPanel.jsx:12 | deselecting a strategy that stands once between `before` and `after` leaves exactly `before + after`: the other strategies keep their order |
| Reasoning.ToggleTwice | src/components/ReasoningPanel.jsx:8-17 | toggling an absent strategy twice restores the strategy list, with a missing list read as empty |
| Reasoning.ChangeEffort | src/components/ReasoningPanel.jsx:4-6 | `handleEffortChange` sets the effort to the one chosen and keeps the strategies |
| Substitution.ReplaceAll | src/components/PreviewPane.jsx:80 | a global replace by a replacement as long as the pattern keeps the length of the text |
| Substitution.ReplaceAllAbsent | src/components/PreviewPane.jsx:80 | a global replace of a pattern that does not occur leaves the text as it is |
| Substitution.ReplaceAllIdentity | src/components/PreviewPane.jsx:80 | replacing the placeholder by itself changes nothing |
| Substitution.EmptyValuesKeepText | src/components/PreviewPane.jsx:77-81 | variables that are all empty leave the preview unchanged, because `value \|\| '{{key}}'` puts each placeholder back |
| Substitution.ReplaceAllHead | src/components/PreviewPane.jsx:80 | a match at the front is replaced and the scan resumes right after it |
| Substitution.ReplaceAllSplit | src/components/PreviewPane.jsx:80 | replacing distributes over a split whose left part ends in a character that is not in the pattern |
| Substitution.ReplaceAllKeepsLast | src/components/PreviewPane.jsx:80 | a last character that is not in the pattern survives replacement |
| Substitution.SubstituteAllSplit | src/components/PreviewPane.jsx:77-81 | for single-line keys, substituting all variables distributes over a split after a line end |
| Substitution.PlaceholderReplaced | src/components/PreviewPane.jsx:77-81 | a placeholder anywhere (at the start, after a line end, or in mid-line after a character that is not in the placeholder) is replaced by the value, or put back when the value is empty, and the text on either side is substituted on its own |
| Substitution.MidLinePlaceholder | src/components/PreviewPane.jsx:77-81 | a placeholder after a space, whose key has no space, in text with no other braces, is the only thing that changes |
| Substitution.NoBraceUnchanged | src/components/PreviewPane.jsx:79-80 | text without `{` is never changed by substitution |
| Substitution.SpacedPlaceholderKept | src/components/PreviewPane.jsx:79 | `{{ key }}` with inner spaces is not the placeholder of `key` and stays as written |
| Substitution.SourcePattern | src/components/PreviewPane.jsx:78-79 | the pattern the code compiles is never empty; it is the literal placeholder for every key that is not all digits, and for an all-digit key it ends in the only `}` it holds |
| Substitution.SourceSubstitute | src/components/PreviewPane.jsx:78-80 | the substitution step as written agrees with the literal one for every key that is not all digits |
| Substitution.NumericKeyIgnored | src/components/PreviewPane.jsx:78-80 | as written, `{{3}}` stays in the text whatever the value of key "3"; the literal pattern would replace it |
| Substitution.NumericPlaceholderNeverSubstituted | src/components/PreviewPane.jsx:78-80 | as written, no all-digit key other than 0 ever has its placeholder replaced |
| Substitution.ZeroKeyEatsBraces | src/components/PreviewPane.jsx:78-80 | as written, key "0" compiles to `}`, so text ending in `}}` loses both braces to two copies of the value |
| Substitution.ZeroKeyPlaceholder | src/components/PreviewPane.jsx:78-80 | as written, `{{0}}` becomes `{{0` followed by the value twice |
| Preview.KnowledgeText | src/components/PreviewPane.jsx:15-40 | the knowledge content is the retrieved listing when retrieval is enabled, and otherwise the truncated listing of all sources |
| Preview.AppendRole | src/components/PreviewPane.jsx:7 | the role block is appended only for a non-empty role |
| Preview.AppendGoal | src/components/PreviewPane.jsx:8 | the goal block is appended only for a non-empty goal |
| Preview.AppendTopics | src/components/PreviewPane.jsx:10-12 | the topic list is appended only when there are topics |
| Preview.AppendKnowledge | src/components/PreviewPane.jsx:14-43 | the knowledge section is appended only when there are sources |
| Preview.AppendExamples | src/components/PreviewPane.jsx:45-47 | the examples are appended only when there are some |
| Preview.AppendEffort | src/components/PreviewPane.jsx:53-57 | the effort block is added for "low" or "high" only |
| Preview.AppendStrategies | src/components/PreviewPane.jsx:60-71 | the strategy header and each selected strategy's block are added in a fixed order |
| Preview.AppendReasoning | src/components/PreviewPane.jsx:49-73 | the reasoning section is its header, the effort block, the strategies and a blank line |
| Preview.SubstituteVariables | src/components/PreviewPane.jsx:77-81 | the `forEach` over the variables applies each substitution in key order |
| Preview.PreviewText | src/components/PreviewPane.jsx:4-83 | `getPreviewText` returns exactly the sections in order, followed by the instructions, with every variable substituted |
| Preview.SectionGating | src/components/PreviewPane.jsx:7-73 | each section is empty exactly when its input is absent or empty, and every section ends a line |
| Preview.HeadEndsLine | src/components/PreviewPane.jsx:7-75 | everything before `Instructions:` ends a line |
| Preview.OnlyInstructions | src/components/PreviewPane.jsx:75 | with nothing else set, the text before substitution is `Instructions:\n` and the prompt |
| Preview.SubstitutedBySection | src/components/PreviewPane.jsx:75-81 | for single-line keys, substituting the whole preview equals substituting each section on its own |
| Preview.RolePlaceholderFilled | src/components/PreviewPane.jsx:7 | a role that is a placeholder shows the variable's value, or the placeholder when the value is empty |
| Preview.RetrievedListing | src/components/PreviewPane.jsx:17-29 | in retrieval mode the section lists retrieved chunks that are sorted, all positively scored, and no more than `topK` |
| Preview.BlankQueryFindsNothing | src/components/PreviewPane.jsx:20-28 | with a blank role, goal and prompt, retrieval mode shows the no-match message |
| Preview.SnippetBounds | src/components/PreviewPane.jsx:35 | content up to 200 characters is shown whole; longer content shows its first 200 characters and `...` |
| Preview.EffortGating | src/components/PreviewPane.jsx:53-57 | there is an effort block exactly for "low" and "high" |
| Preview.StrategyOrderIrrelevant | src/components/PreviewPane.jsx:60-71 | the strategy blocks depend on which strategies are selected, not on their order |
| Preview.AllStrategiesInFixedOrder | src/components/PreviewPane.jsx:61-70 | with all three strategies, the blocks come as tool preamble, chain of thought, planning enforcement |
| Preview.ExampleNumbering | src/components/PreviewPane.jsx:46 | example `i` is labelled with the number `i + 1` and shows its input and output |
| Topics.HandleEdit | src/components/TopicManager.jsx:105-120 | `handleEdit` opens the form on the topic with its title, keeping the two text inputs; a record is edited as it is; a bare string becomes the record with the new id `now`, its title, empty description, scope, instructions and actions, and no `selected` |
| Topics.AddInstruction | src/components/TopicManager.jsx:126-134 | `addInstruction` only grows the instructions, by at most one, keeps the old ones in front, and, as the `...prev` spread does, leaves every other field of the topic, `isEditing` and the action input as they were |
| Topics.RemoveInstruction | src/components/TopicManager.jsx:136-141 | `removeInstruction` only shrinks the instructions and leaves every other field of the topic, `isEditing` and both text inputs as they were |
| Topics.AddAction | src/components/TopicManager.jsx:143-151 | `addAction` only grows the actions, by at most one, keeps the old ones in front, and, as the `...prev` spread does, leaves every other field of the topic, `isEditing` and the instruction input as they were |
| Topics.RemoveAction | src/components/TopicManager.jsx:153-158 | `removeAction` only shrinks the actions and leaves every other field of the topic, `isEditing` and both text inputs as they were |
| Topics.DropIndexSlices | src/components/TopicManager.jsx:139 | the positional filter removes exactly the element at the index, and nothing for an index out of range |
| Topics.AddInstructionEffect | src/components/TopicManager.jsx:126-134 | a blank input changes nothing; otherwise the trimmed input is appended and the input cleared, with the actions untouched |
| Topics.RemoveInstructionEffect | src/components/TopicManager.jsx:136-141 | removing an instruction drops exactly the one at that index and leaves the actions |
| Topics.AddActionEffect | src/components/TopicManager.jsx:143-151 | a blank input changes nothing; otherwise the trimmed input is appended and the input cleared, with the instructions untouched |
| Topics.RemoveActionEffect | src/components/TopicManager.jsx:153-158 | removing an action drops exactly the one at that index and leaves the instructions |
| Topics.HandleSave | src/components/TopicManager.jsx:72-89 | `handleSave` leaves the form as it was exactly when the title is blank, and then keeps the list; otherwise it clears the form; the list grows by one exactly for a non-blank topic without an id, keeping the old list in front, and keeps its length otherwise |
| Topics.ReplaceByIdEffect | src/components/TopicManager.jsx:83 | every topic whose id equals the edited id is replaced by the new topic, and every other is kept |
| Topics.ReplaceByMissingId | src/components/TopicManager.jsx:83 | saving under an id no topic has leaves the list unchanged |
| Topics.SaveExistingTopic | src/components/TopicManager.jsx:75-88 | saving a topic with an id keeps the length, puts the saved topic with its trimmed title at every position whose record carries that id, keeps every other entry, and clears the form |
| Topics.SaveBlankTitle | src/components/TopicManager.jsx:73 | a blank title saves nothing and keeps the form |
| Topics.SaveNewTopic | src/components/TopicManager.jsx:75-88 | a topic without an id is appended with the time as its id and its title trimmed, and the form is reset |
| Topics.EditLegacyThenSave | src/components/TopicManager.jsx:105-115 | editing a bare-string topic and saving it changes no list entry: the record gets a fresh id that matches nothing |
| Topics.LoadDefaults | src/components/TopicManager.jsx:91-103 | `loadDefaults` keeps the existing list in front and adds at most the three standard topics |
| Topics.NewDefaultsMembers | src/components/TopicManager.jsx:94 | a standard topic is added exactly when its title is not already present |
| Topics.NewDefaultsConcat | src/components/TopicManager.jsx:94 | the `filter` over the defaults works piece by piece, so the kept defaults keep their declared order and each occurs once |
| Topics.LoadDefaultsEffect | src/components/TopicManager.jsx:91-103 | the existing topics stay in front; the added ones are the standard topics with new titles; afterwards every standard title is present |
| Topics.LoadDefaultsInOrder | src/components/TopicManager.jsx:91-103 | the appended tail is exactly Presentation Design, Academic Research and Pedagogy, each once and in that declared order, each present only when its title is not already a title of the list |
| Topics.LoadDefaultsIdempotent | src/components/TopicManager.jsx:91-103 | loading the standard topics twice is the same as once |
| Topics.HandleRemove | src/components/TopicManager.jsx:122-124 | `handleRemove` never lengthens the list and leaves no topic with the removed id |
| Topics.HandleRemoveEffect | src/components/TopicManager.jsx:122-124 | no remaining topic has the removed id, and every other topic keeps its number of occurrences |
| Topics.HandleRemoveConcat | src/components/TopicManager.jsx:123 | removal distributes over concatenation |
| Topics.SourceToggled | src/components/TopicManager.jsx:160-180 | the toggle as written turns every matching topic into a record with an explicit flag, keeping every other field of a record (`...t`); a bare string becomes an unselected record of that title and id with empty description, scope, instructions and actions |
| Topics.SourceToggleIgnoresUnset | src/components/TopicManager.jsx:176 | as written, a record without `selected` is shown selected both before and after its toggle |
| Topics.Toggled | src/components/TopicManager.jsx:160-180 | the intended toggle keeps the id and title, sets an explicit flag, flips the selection that is shown, keeps every other field of a record (`...t`), and makes a bare string an unselected record with empty description, scope, instructions and actions |
| Topics.HandleToggleSelection | src/components/TopicManager.jsx:160-180 | the toggle keeps the list length; its effect on each topic is `ToggleEffect` |
| Topics.ToggledAgreesWithSource | src/components/TopicManager.jsx:160-180 | the intended toggle differs from the written one only on a record without `selected` |
| Topics.ToggledEffect | src/components/TopicManager.jsx:160-180 | a toggled topic keeps its id and title; the selection shown flips; a second toggle restores it |
| Topics.ToggleEffect | src/components/TopicManager.jsx:160-180 | topics with another id are untouched, and every matching one becomes `Toggled` of itself, keeping its id and title with its shown selection flipped |

## Left out

- Clipboard, export, `alert` and rendering in the components are not modelled. This includes the counts that `loadDefaults` reports through `alert`. None of it changes the state being modelled.
- `toFixed(2)` on scores is the `formatScore` parameter of the preview functions. Floating-point formatting is not modelled.
- `Date.now()` in `handleSave` and `handleEdit` is the `now` parameter.
- Unicode is not modelled:
  - `toLowerCase`, `\w`, `\s` and `trim` are modelled on ASCII letters and the ASCII whitespace characters;
  - the 200-character snippet counts characters, not UTF-16 code units.
- `$`-patterns in a variable's value (`$&`, `$1`) are not interpreted. The value is inserted literally.
- Substitution.EmptyValuesKeepText: holds of the source only for keys without `$`. For an empty value the source's fallback `{{key}}` is itself a `replace` replacement string, so a key such as `a$$` turns `{{a$$}}` into `{{a$}}`, and a key holding `` $` `` or `$'` splices in the text before or after the match. Keys come from `[^}]+` and may contain `$`; the model inserts the fallback literally.
- Substitution.PlaceholderReplaced: its "put back when the value is empty" half holds of the source only for keys without `$`, for the same reason: the `{{key}}` fallback is inserted literally in the model, while the source expands `$`-patterns in it.
- Numeric-looking keys are taken in insertion order. A JavaScript object would list integer-like keys first.
- Topics in the preview are strings. A topic record renders as `[object Object]` there, and that rendering is not modelled.
- Quantifier forms other than the plain `{n}` finding below are not modelled: keys of the form `n,` or `n,m`, and keys such as `3,2` that make `new RegExp` throw.
- Keys that name `Object.prototype` members (`constructor`, `toString`) are not looked up through the prototype.
- `KnowledgePanel`, `ExamplesPanel`, `TemplateLibrary`, persistence and the Electron and Tauri shells are not part of this model. They only supply inputs.
- Preview.PreviewText: substitutes with the literal `{{key}}` pattern. For all-digit keys this differs from the source (see Findings). The as-written pattern is `Substitution.SourcePattern`.
- Chunking.ChunkText: advances by at least one character when `end - overlap` would not advance, so it always ends. The source can loop forever; its step is `Chunking.SourceNext`, and the two agree whenever the source's step advances (see Findings).
- Topics.HandleToggleSelection: uses the intended toggle. The source's `!t.selected` is `Topics.SourceToggled` (see Findings).
- Retrieval.Retrieve: a missing `options` argument is `DefaultOptions` (`topK` 3, chunk size 500). A missing `topK` keeps every result, as `slice(0, undefined)` does. `topK` and `chunkSize` are `nat`, so negative values are excluded: a negative `topK`, which `slice(0, -k)` would read as "drop the last k results", is not modelled. A `topK` of 0 gives no results, as in the source.

## Findings

| source | as written | input that shows it | evidently intended | confidence | as-written member | corrected member |
|---|---|---|---|---|---|---|
| src/utils/RagEngine.js:29-37 | `start = end - overlap` after cutting at the last break, even when that does not move the cursor forward | 511 characters, a space at index 10, chunk size 500, overlap 50: the cursor goes to -40 and stays there | the cursor always advances, so chunking ends | high, not executed | Chunking.SourceLoopDiverges | Chunking.NextCursorAgrees |
| src/components/PreviewPane.jsx:78-80 | the outer braces of `{{key}}` are not escaped, so an all-digit key makes `{n}` a quantifier | key "3" with any non-empty value: `{{3}}` stays in the preview; key "0": every `}` is replaced | each `{{key}}` is replaced literally | medium, not executed | Substitution.NumericKeyIgnored | Substitution.PlaceholderReplaced |
| src/components/TopicManager.jsx:176 | `selected: !t.selected` reads a missing flag as false, while the list shows it as selected (line 295) | a topic saved through the editor has no `selected`: its first toggle leaves it shown as selected | a toggle flips the selection that is shown | medium, not executed | Topics.SourceToggleIgnoresUnset | Topics.ToggledEffect |
