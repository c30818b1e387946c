/**
 * The assembled prompt (`PreviewPane.getPreviewText`): sections for the
 * role, the goal, the topics, the knowledge sources, the few-shot examples
 * and the reasoning configuration, each present only when its input is,
 * then the instructions; then every variable placeholder of the whole text
 * is substituted.
 *
 * Topics arrive as the text each renders to.  `score.toFixed(2)` is the
 * parameter `formatScore`.
 */
module Preview {
  import opened Wrappers
  import opened Strings
  import opened Substitution
  import Variables
  import Reasoning
  import Retrieval
  import Scoring

  datatype Example = Example(input: string, output: string)

  /** `ragSettings`: whether retrieval is on, and the options it passes to `retrieve`. */
  datatype RagSettings = RagSettings(enabled: bool, topK: Option<nat>, chunkSize: Option<nat>)

  /** The props of the preview. */
  datatype Inputs = Inputs(
    prompt: string,
    variables: seq<Variables.Binding>,
    role: string,
    goal: string,
    topics: seq<string>,
    knowledge: seq<Retrieval.Source>,
    examples: seq<Example>,
    reasoning: Option<Reasoning.Config>,
    rag: Option<RagSettings>)

  // ----- the sections -----

  function RoleSection(role: string): string {
    if role == [] then [] else "Role:\n" + role + "\n\n"
  }

  function GoalSection(goal: string): string {
    if goal == [] then [] else "Goal:\n" + goal + "\n\n"
  }

  function Bullets(topics: seq<string>): (r: seq<string>)
    ensures |r| == |topics|
  {
    seq(|topics|, i requires 0 <= i < |topics| => "- " + topics[i])
  }

  function TopicsSection(topics: seq<string>): string {
    if topics == [] then [] else "Topics:\n" + Join(Bullets(topics), "\n") + "\n\n"
  }

  /** `${role} ${goal} ${prompt}`: the query retrieval is asked with. */
  function RagQuery(role: string, goal: string, prompt: string): string {
    role + " " + goal + " " + prompt
  }

  predicate RagOn(rag: Option<RagSettings>) {
    rag.Some? && rag.value.enabled
  }

  function RagOptions(settings: RagSettings): Retrieval.Options {
    Retrieval.Options(settings.topK, settings.chunkSize)
  }

  const NoMatchText: string := "Knowledge Sources:\n(No relevant information found for the current prompt)"

  function RetrievedEntries(chunks: seq<Retrieval.ScoredChunk>, formatScore: real -> string): (r: seq<string>)
    ensures |r| == |chunks|
  {
    seq(|chunks|, i requires 0 <= i < |chunks| =>
      "[Source: " + chunks[i].sourceName + "] (Score: " + formatScore(chunks[i].score) + ")\n" + chunks[i].content)
  }

  /** The knowledge text in retrieval mode. */
  function RetrievedList(chunks: seq<Retrieval.ScoredChunk>, formatScore: real -> string): string {
    if chunks == [] then NoMatchText
    else "Knowledge Sources (Retrieved):\n" + Join(RetrievedEntries(chunks, formatScore), "\n\n")
  }

  /** `content.substring(0, 200) + '...'` for a content longer than 200 characters. */
  function Snippet(content: string): string {
    if |content| > 200 then content[..200] + "..." else content
  }

  function SourceEntry(k: Retrieval.Source): string {
    "- " + k.name + " (" + k.kind + ")" + (if k.content == [] then [] else "\n  Content Snippet: " + Snippet(k.content))
  }

  /** The knowledge text when retrieval is off: every source, with a snippet of its content. */
  function SourceList(knowledge: seq<Retrieval.Source>): string {
    "Knowledge Sources:\n" + Join(seq(|knowledge|, i requires 0 <= i < |knowledge| => SourceEntry(knowledge[i])), "\n")
  }

  function KnowledgeContent(inp: Inputs, formatScore: real -> string): string {
    if RagOn(inp.rag) then
      RetrievedList(Retrieval.RetrieveSpec(RagQuery(inp.role, inp.goal, inp.prompt), inp.knowledge, RagOptions(inp.rag.value)), formatScore)
    else SourceList(inp.knowledge)
  }

  function KnowledgeSection(inp: Inputs, formatScore: real -> string): string {
    if inp.knowledge == [] then [] else KnowledgeContent(inp, formatScore) + "\n\n"
  }

  /** `Example ${i + 1}:` and the two lines of the exchange. */
  function ExampleEntry(i: nat, ex: Example): string {
    "Example " + Decimal(i + 1) + ":\nUser: " + ex.input + "\nAssistant: " + ex.output
  }

  function ExampleEntries(examples: seq<Example>): (r: seq<string>)
    ensures |r| == |examples|
  {
    seq(|examples|, i requires 0 <= i < |examples| => ExampleEntry(i, examples[i]))
  }

  function ExamplesSection(examples: seq<Example>): string {
    if examples == [] then [] else "Few-Shot Examples:\n" + Join(ExampleEntries(examples), "\n\n") + "\n\n"
  }

  const LowEffort: string := "[Reasoning Effort: Low]\n- Provide brief, bullet-point explanations.\n- Focus on speed and conciseness.\n"
  const HighEffort: string := "[Reasoning Effort: High]\n- Plan extensively before answering.\n- Decompose the user's query into sub-tasks.\n- Reflect on outcomes before proceeding.\n"
  const ToolPreamble: string := "<tool_preambles>\n- Always begin by rephrasing the user's goal.\n- Outline a structured plan detailing each logical step.\n- Narrate each step succinctly as you execute it.\n- Finish by summarizing completed work.\n</tool_preambles>\n"
  const ChainOfThought: string := "- Think step-by-step. Explain your logic clearly for each decision.\n"
  const PlanningEnforcement: string := "- Remember, you are an agent. Keep going until the user's query is completely resolved.\n- Do not stop after completing only part of the request.\n- Only terminate your turn when you are sure that the problem is solved.\n"

  function EffortBlock(effort: string): string {
    if effort == "low" then LowEffort else if effort == "high" then HighEffort else []
  }

  const StrategyHeader: string := "\nStrategic Instructions:\n"

  /** A block that is present only when its condition holds. */
  function Opt(present: bool, block: string): string {
    if present then block else []
  }

  /** The strategy blocks, always in this order whatever the order of selection. */
  function StrategyBlock(strategies: seq<string>): string {
    if strategies == [] then []
    else
      StrategyHeader + Opt("tool_preamble" in strategies, ToolPreamble)
        + Opt("chain_of_thought" in strategies, ChainOfThought)
        + Opt("planning_enforcement" in strategies, PlanningEnforcement)
  }

  function ReasoningSection(reasoning: Option<Reasoning.Config>): string {
    match reasoning
    case None => []
    case Some(config) =>
      "Reasoning Configuration:\n" + EffortBlock(config.effort) + StrategyBlock(config.strategies.GetOr([])) + "\n"
  }

  function InstructionsSection(prompt: string): string {
    "Instructions:\n" + prompt
  }

  /** Everything before the instructions. */
  function Head(inp: Inputs, formatScore: real -> string): string {
    RoleSection(inp.role) + GoalSection(inp.goal) + TopicsSection(inp.topics)
      + KnowledgeSection(inp, formatScore) + ExamplesSection(inp.examples) + ReasoningSection(inp.reasoning)
  }

  /** The text before substitution. */
  function Assembled(inp: Inputs, formatScore: real -> string): string {
    Head(inp, formatScore) + InstructionsSection(inp.prompt)
  }

  /** The preview: the assembled text with every variable substituted, in order. */
  function PreviewSpec(inp: Inputs, formatScore: real -> string): string {
    SubstituteAll(Assembled(inp, formatScore), inp.variables)
  }

  // ----- getPreviewText -----

  /** The knowledge text of `getPreviewText`: retrieved chunks in retrieval mode, every source otherwise. */
  method KnowledgeText(inp: Inputs, formatScore: real -> string) returns (knowledgeContent: string)
    ensures knowledgeContent == KnowledgeContent(inp, formatScore)
  {
    if RagOn(inp.rag) {
      var query := inp.role + " " + inp.goal + " " + inp.prompt;
      var retrieved := Retrieval.Retrieve(query, inp.knowledge, RagOptions(inp.rag.value));
      if retrieved != [] {
        knowledgeContent := "Knowledge Sources (Retrieved):\n" + Join(RetrievedEntries(retrieved, formatScore), "\n\n");
      } else {
        knowledgeContent := NoMatchText;
      }
    } else {
      knowledgeContent := SourceList(inp.knowledge);
    }
  }

  /** `if (present) preview += block`. */
  method AppendWhen(text: string, present: bool, block: string) returns (r: string)
    ensures r == text + Opt(present, block)
  {
    r := text;
    if present {
      r := r + block;
    }
  }

  lemma Regroup(p: string, a: string, b: string, c: string, d: string)
    ensures p + a + b + c + d == p + (a + b + c + d)
  {
  }

  /** The effort block: fixed text for "low" and "high", nothing otherwise. */
  method AppendEffort(preview: string, effort: string) returns (text: string)
    ensures text == preview + EffortBlock(effort)
  {
    text := preview;
    if effort == "low" {
      text := text + LowEffort;
    } else if effort == "high" {
      text := text + HighEffort;
    }
  }

  /** The strategy blocks, each appended when its strategy is selected. */
  method AppendStrategies(preview: string, strategies: seq<string>) returns (text: string)
    ensures text == preview + StrategyBlock(strategies)
  {
    text := preview;
    if strategies != [] {
      text := text + StrategyHeader;
      text := AppendWhen(text, "tool_preamble" in strategies, ToolPreamble);
      text := AppendWhen(text, "chain_of_thought" in strategies, ChainOfThought);
      text := AppendWhen(text, "planning_enforcement" in strategies, PlanningEnforcement);
      Regroup(preview, StrategyHeader, Opt("tool_preamble" in strategies, ToolPreamble),
        Opt("chain_of_thought" in strategies, ChainOfThought), Opt("planning_enforcement" in strategies, PlanningEnforcement));
    }
  }

  /** The reasoning part of `getPreviewText`, appended block by block. */
  method AppendReasoning(preview: string, config: Reasoning.Config) returns (text: string)
    ensures text == preview + ReasoningSection(Some(config))
  {
    var header := "Reasoning Configuration:\n";
    text := preview + header;
    text := AppendEffort(text, config.effort);
    var strategies := config.strategies.GetOr([]);
    text := AppendStrategies(text, strategies);
    text := text + "\n";
    Regroup(preview, header, EffortBlock(config.effort), StrategyBlock(strategies), "\n");
  }

  /** The `forEach` over the variables: each one rewrites the whole text in turn. */
  method SubstituteVariables(text: string, vars: seq<Variables.Binding>) returns (result: string)
    ensures result == SubstituteAll(text, vars)
  {
    result := text;
    var i := 0;
    while i < |vars|
      invariant 0 <= i <= |vars|
      invariant result == SubstituteAll(text, vars[..i])
    {
      var b := vars[i];
      var pattern := "{{" + b.key + "}}";
      var replacement := if b.value != [] then b.value else pattern;
      result := ReplaceAll(result, pattern, replacement);
      assert vars[..i + 1][..i] == vars[..i];
      i := i + 1;
    }
    assert vars[..|vars|] == vars;
  }

  /** `if (role) preview += ...`. */
  method AppendRole(preview: string, role: string) returns (text: string)
    ensures text == preview + RoleSection(role)
  {
    text := preview;
    if role != [] {
      text := text + ("Role:\n" + role + "\n\n");
    }
  }

  /** `if (goal) preview += ...`. */
  method AppendGoal(preview: string, goal: string) returns (text: string)
    ensures text == preview + GoalSection(goal)
  {
    text := preview;
    if goal != [] {
      text := text + ("Goal:\n" + goal + "\n\n");
    }
  }

  /** `if (topics && topics.length > 0) preview += ...`. */
  method AppendTopics(preview: string, topics: seq<string>) returns (text: string)
    ensures text == preview + TopicsSection(topics)
  {
    text := preview;
    if topics != [] {
      text := text + ("Topics:\n" + Join(Bullets(topics), "\n") + "\n\n");
    }
  }

  /** `if (knowledge && knowledge.length > 0) preview += ...`. */
  method AppendKnowledge(preview: string, inp: Inputs, formatScore: real -> string) returns (text: string)
    ensures text == preview + KnowledgeSection(inp, formatScore)
  {
    text := preview;
    if inp.knowledge != [] {
      var knowledgeContent := KnowledgeText(inp, formatScore);
      text := text + (knowledgeContent + "\n\n");
    }
  }

  /** `if (examples && examples.length > 0) preview += ...`. */
  method AppendExamples(preview: string, examples: seq<Example>) returns (text: string)
    ensures text == preview + ExamplesSection(examples)
  {
    text := preview;
    if examples != [] {
      text := text + ("Few-Shot Examples:\n" + Join(ExampleEntries(examples), "\n\n") + "\n\n");
    }
  }

  /** `getPreviewText()`: the text grows section by section, then each variable is substituted in turn. */
  method PreviewText(inp: Inputs, formatScore: real -> string) returns (preview: string)
    ensures preview == PreviewSpec(inp, formatScore)
  {
    preview := "";
    preview := AppendRole(preview, inp.role);
    assert preview == RoleSection(inp.role);
    preview := AppendGoal(preview, inp.goal);
    preview := AppendTopics(preview, inp.topics);
    preview := AppendKnowledge(preview, inp, formatScore);
    preview := AppendExamples(preview, inp.examples);
    if inp.reasoning.Some? {
      preview := AppendReasoning(preview, inp.reasoning.value);
    }
    assert preview == Head(inp, formatScore);
    preview := preview + ("Instructions:\n" + inp.prompt);
    preview := SubstituteVariables(preview, inp.variables);
  }

  // ----- what the preview promises -----

  /** Each section is there exactly when its input is, and every section ends a line. */
  lemma SectionGating(inp: Inputs, formatScore: real -> string)
    ensures RoleSection(inp.role) == [] <==> inp.role == []
    ensures GoalSection(inp.goal) == [] <==> inp.goal == []
    ensures TopicsSection(inp.topics) == [] <==> inp.topics == []
    ensures KnowledgeSection(inp, formatScore) == [] <==> inp.knowledge == []
    ensures ExamplesSection(inp.examples) == [] <==> inp.examples == []
    ensures ReasoningSection(inp.reasoning) == [] <==> inp.reasoning.None?
    ensures EndsLine(RoleSection(inp.role)) && EndsLine(GoalSection(inp.goal)) && EndsLine(TopicsSection(inp.topics))
    ensures EndsLine(KnowledgeSection(inp, formatScore)) && EndsLine(ExamplesSection(inp.examples))
    ensures EndsLine(ReasoningSection(inp.reasoning))
  {
  }

  /** The head of the text is empty or ends a line, so the instructions always start a line of their own. */
  lemma HeadEndsLine(inp: Inputs, formatScore: real -> string)
    ensures EndsLine(Head(inp, formatScore))
  {
    SectionGating(inp, formatScore);
    var r, g, t := RoleSection(inp.role), GoalSection(inp.goal), TopicsSection(inp.topics);
    var k, e, z := KnowledgeSection(inp, formatScore), ExamplesSection(inp.examples), ReasoningSection(inp.reasoning);
    EndsLineConcat(r, g);
    EndsLineConcat(r + g, t);
    EndsLineConcat(r + g + t, k);
    EndsLineConcat(r + g + t + k, e);
    EndsLineConcat(r + g + t + k + e, z);
  }

  /** With nothing but a prompt, the assembled text is the instructions alone. */
  lemma OnlyInstructions(inp: Inputs, formatScore: real -> string)
    requires inp.role == [] && inp.goal == [] && inp.topics == [] && inp.knowledge == []
    requires inp.examples == [] && inp.reasoning.None?
    ensures Assembled(inp, formatScore) == "Instructions:\n" + inp.prompt
  {
    assert Head(inp, formatScore) == [];
  }

  /**
   * With single-line keys, substitution works section by section: the
   * variables are filled in the role, the goal, the topics, the knowledge,
   * the examples and the reasoning exactly as in the instructions, and the
   * substituted instructions come last.
   */
  lemma SubstitutedBySection(inp: Inputs, formatScore: real -> string)
    requires SingleLineKeys(inp.variables)
    ensures var vs := inp.variables;
      PreviewSpec(inp, formatScore)
      == SubstituteAll(RoleSection(inp.role), vs) + SubstituteAll(GoalSection(inp.goal), vs)
         + SubstituteAll(TopicsSection(inp.topics), vs) + SubstituteAll(KnowledgeSection(inp, formatScore), vs)
         + SubstituteAll(ExamplesSection(inp.examples), vs) + SubstituteAll(ReasoningSection(inp.reasoning), vs)
         + SubstituteAll(InstructionsSection(inp.prompt), vs)
  {
    var vs := inp.variables;
    SectionGating(inp, formatScore);
    var r, g, t := RoleSection(inp.role), GoalSection(inp.goal), TopicsSection(inp.topics);
    var k, e, z := KnowledgeSection(inp, formatScore), ExamplesSection(inp.examples), ReasoningSection(inp.reasoning);
    var n := InstructionsSection(inp.prompt);
    EndsLineConcat(r, g);
    EndsLineConcat(r + g, t);
    EndsLineConcat(r + g + t, k);
    EndsLineConcat(r + g + t + k, e);
    EndsLineConcat(r + g + t + k + e, z);
    SubstituteAllSplit(r + g + t + k + e + z, n, vs);
    SubstituteAllSplit(r + g + t + k + e, z, vs);
    SubstituteAllSplit(r + g + t + k, e, vs);
    SubstituteAllSplit(r + g + t, k, vs);
    SubstituteAllSplit(r + g, t, vs);
    SubstituteAllSplit(r, g, vs);
  }

  /** A role that is a placeholder shows the variable's value, or the placeholder when the value is empty. */
  lemma RolePlaceholderFilled(b: Variables.Binding)
    requires '\n' !in b.key
    ensures Substitute(RoleSection(Pattern(b.key)), b) == RoleSection(Replacement(b))
  {
    var pat := Pattern(b.key);
    assert '\n' !in Pattern(b.key);
    PlaceholderReplaced("Role:\n", "\n\n", b);
    NoBraceUnchanged("Role:\n", b);
    NoBraceUnchanged("\n\n", b);
  }

  /** Retrieval mode lists what `retrieve` returns, best first, each with a positive score, at most `topK` of them. */
  lemma RetrievedListing(inp: Inputs, formatScore: real -> string)
    requires inp.knowledge != [] && RagOn(inp.rag)
    ensures var chunks := Retrieval.RetrieveSpec(RagQuery(inp.role, inp.goal, inp.prompt), inp.knowledge, RagOptions(inp.rag.value));
      KnowledgeSection(inp, formatScore) == RetrievedList(chunks, formatScore) + "\n\n"
      && Retrieval.Sorted(chunks)
      && (forall c :: c in chunks ==> c.score > 0.0)
      && (inp.rag.value.topK.Some? ==> |chunks| <= inp.rag.value.topK.value)
  {
    var query := RagQuery(inp.role, inp.goal, inp.prompt);
    Retrieval.RetrieveCorrect(query, inp.knowledge, RagOptions(inp.rag.value));
  }

  /**
   * With retrieval on and a role, goal and prompt of whitespace only, the
   * query has no words, nothing scores, and the knowledge section is the
   * fixed "no relevant information" line.
   */
  lemma BlankQueryFindsNothing(inp: Inputs, formatScore: real -> string)
    requires inp.knowledge != [] && RagOn(inp.rag)
    requires IsBlank(inp.role) && IsBlank(inp.goal) && IsBlank(inp.prompt)
    ensures KnowledgeSection(inp, formatScore) == NoMatchText + "\n\n"
  {
    var query := RagQuery(inp.role, inp.goal, inp.prompt);
    assert IsBlank(query);
    Scoring.BlankTokens(query);
    Retrieval.NoTokensNothing(query, inp.knowledge, RagOptions(inp.rag.value));
  }

  /** A snippet is the content itself up to 200 characters; a longer content is cut to its first 200 and marked with "...". */
  lemma SnippetBounds(content: string)
    ensures |content| <= 200 ==> Snippet(content) == content
    ensures |content| > 200 ==>
      |Snippet(content)| == 203 && Snippet(content)[..200] == content[..200] && Snippet(content)[200..] == "..."
  {
  }

  /** The effort adds a block only for "low" and "high". */
  lemma EffortGating(effort: string)
    ensures EffortBlock(effort) == [] <==> effort != "low" && effort != "high"
  {
  }

  /** The strategy blocks depend only on which strategies are selected, not on their order or repetition. */
  lemma StrategyOrderIrrelevant(s: seq<string>, t: seq<string>)
    requires forall x :: x in s <==> x in t
    ensures StrategyBlock(s) == StrategyBlock(t)
  {
    if s != [] {
      assert s[0] in t;
    }
    if t != [] {
      assert t[0] in s;
    }
  }

  /** Selecting all three strategies, in any order, gives the blocks in their fixed order. */
  lemma AllStrategiesInFixedOrder(s: seq<string>)
    requires "tool_preamble" in s && "chain_of_thought" in s && "planning_enforcement" in s
    ensures StrategyBlock(s) == "\nStrategic Instructions:\n" + ToolPreamble + ChainOfThought + PlanningEnforcement
  {
  }

  /** The `i`-th example is headed by the number `i + 1`, written in decimal, and shows its input and output. */
  lemma ExampleNumbering(examples: seq<Example>, i: nat)
    requires i < |examples|
    ensures var e := ExampleEntries(examples)[i];
      var num := Decimal(i + 1);
      e[..8] == "Example " && e[8..8 + |num|] == num && DecimalValue(num) == i + 1
      && e == "Example " + num + ":\nUser: " + examples[i].input + "\nAssistant: " + examples[i].output
  {
    DecimalRoundTrip(i + 1);
    var e := ExampleEntries(examples)[i];
    var num := Decimal(i + 1);
    assert e == "Example " + (num + (":\nUser: " + examples[i].input + "\nAssistant: " + examples[i].output));
  }
}
