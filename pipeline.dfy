/** The research pipeline's configuration as constant data: three agents run
    in sequence (researcher, writer, reviewer) under one sequential root.
    Each agent writes its answer to the session state under its output key,
    and an instruction names earlier answers with `{key}` placeholders.

    Only the static shape is modelled. Running the stages, calling the model
    and its tools, and replacing placeholders with state values are done by
    the agent framework, which is not part of this model. */
module Pipeline {

  import opened Wrappers
  import opened Instructions

  /** The tool functions an agent can be given (the functions of module `Tools`). */
  datatype Tool = SearchArticlesTool | GetTopicStatsTool | FormatCitationTool

  /** A piece of an instruction: literal text, or a `{key}` placeholder. */
  datatype Segment = Literal(text: string) | Placeholder(key: string)

  /** An `Agent(...)` declaration. The two flags say whether the agent
      registers `before_agent_callback` and `before_model_callback`
      (`Callbacks.BeforeAgentCallback` and `Callbacks.BeforeModelCallback`). */
  datatype Agent = Agent(
    name: string,
    model: string,
    instruction: seq<Segment>,
    description: string,
    tools: seq<Tool>,
    outputKey: Option<string>,
    beforeAgentCallback: bool,
    beforeModelCallback: bool)

  /** A `SequentialAgent(...)` declaration: its sub-agents run in this order. */
  datatype SequentialAgent = SequentialAgent(name: string, description: string, subAgents: seq<Agent>)

  // ---------------------------------------------------------------------
  // Instruction templates
  // ---------------------------------------------------------------------

  function SegmentText(segment: Segment): string {
    match segment
    case Literal(text) => text
    case Placeholder(key) => "{" + key + "}"
  }

  /** The instruction text, with each placeholder written as `{key}`. */
  function Render(segments: seq<Segment>): string
    decreases |segments|
  {
    if |segments| == 0 then "" else SegmentText(segments[0]) + Render(segments[1..])
  }

  /** The keys of the placeholders, in order. */
  function PlaceholderKeys(segments: seq<Segment>): seq<string>
    decreases |segments|
  {
    if |segments| == 0 then []
    else match segments[0]
      case Literal(_) => PlaceholderKeys(segments[1..])
      case Placeholder(key) => [key] + PlaceholderKeys(segments[1..])
  }

  /** A segment reads back as itself: literal text holds no `{`, a key no `}`. */
  predicate SegmentWellFormed(segment: Segment) {
    match segment
    case Literal(text) => '{' !in text
    case Placeholder(key) => '}' !in key
  }

  /** The first `}` at or after index `i`, or `|s|` when there is none. */
  function KeyEnd(s: string, i: nat): (j: nat)
    requires i <= |s|
    ensures i <= j <= |s|
    ensures j < |s| ==> s[j] == '}'
    ensures forall k :: i <= k < j ==> s[k] != '}'
    decreases |s| - i
  {
    if i == |s| || s[i] == '}' then i else KeyEnd(s, i + 1)
  }

  /** The keys an instruction text references: the text between each `{` and
      the next `}`, in order. An unclosed `{` references nothing. */
  function TemplateKeys(s: string): seq<string>
    decreases |s|
  {
    if |s| == 0 then []
    else if s[0] != '{' then TemplateKeys(s[1..])
    else
      var j := KeyEnd(s, 1);
      if j == |s| then [] else [s[1..j]] + TemplateKeys(s[j + 1..])
  }

  lemma {:induction false} TemplateKeysSkipLiteral(text: string, rest: string)
    requires '{' !in text
    ensures TemplateKeys(text + rest) == TemplateKeys(rest)
    decreases |text|
  {
    if |text| > 0 {
      assert (text + rest)[0] == text[0];
      assert (text + rest)[1..] == text[1..] + rest;
      TemplateKeysSkipLiteral(text[1..], rest);
    } else {
      assert text + rest == rest;
    }
  }

  lemma TemplateKeysPlaceholder(key: string, rest: string)
    requires '}' !in key
    ensures TemplateKeys("{" + key + "}" + rest) == [key] + TemplateKeys(rest)
  {
    var s := "{" + key + "}" + rest;
    assert s[|key| + 1] == '}';
    assert forall k :: 1 <= k < |key| + 1 ==> s[k] == key[k - 1];
    var j := KeyEnd(s, 1);
    assert j == |key| + 1;
    assert s[1..j] == key;
    assert s[j + 1..] == rest;
  }

  /** Reading the placeholders back from a rendered instruction gives exactly
      the placeholder keys, in order, when every segment is well formed. */
  lemma {:induction false} TemplateKeysOfRender(segments: seq<Segment>)
    requires forall k :: 0 <= k < |segments| ==> SegmentWellFormed(segments[k])
    ensures TemplateKeys(Render(segments)) == PlaceholderKeys(segments)
    decreases |segments|
  {
    if |segments| > 0 {
      TemplateKeysOfRender(segments[1..]);
      var rest := Render(segments[1..]);
      match segments[0]
      case Literal(text) =>
        TemplateKeysSkipLiteral(text, rest);
      case Placeholder(key) =>
        TemplateKeysPlaceholder(key, rest);
    }
  }

  // ---------------------------------------------------------------------
  // Static well-formedness of a sequential pipeline
  // ---------------------------------------------------------------------

  /** The state keys an agent's instruction declares as placeholders, in order. */
  function References(agent: Agent): seq<string> {
    PlaceholderKeys(agent.instruction)
  }

  /** Every segment of the agent's instruction reads back as itself. */
  predicate InstructionWellFormed(agent: Agent) {
    forall k :: 0 <= k < |agent.instruction| ==> SegmentWellFormed(agent.instruction[k])
  }

  /** For a well-formed instruction, the `{key}` tokens of the rendered text
      are exactly the declared placeholders. */
  lemma TextReferences(agent: Agent)
    requires InstructionWellFormed(agent)
    ensures TemplateKeys(Render(agent.instruction)) == References(agent)
  {
    TemplateKeysOfRender(agent.instruction);
  }

  predicate DistinctNames(agents: seq<Agent>) {
    forall i, j :: 0 <= i < j < |agents| ==> agents[i].name != agents[j].name
  }

  predicate DistinctOutputKeys(agents: seq<Agent>) {
    forall i, j :: 0 <= i < j < |agents| && agents[i].outputKey.Some? ==> agents[i].outputKey != agents[j].outputKey
  }

  /** Every referenced key is the output key of a strictly earlier agent. */
  predicate ReferencesResolved(agents: seq<Agent>) {
    forall i, key :: 0 <= i < |agents| && key in References(agents[i]) ==>
      exists j :: 0 <= j < i && agents[j].outputKey == Some(key)
  }

  predicate WellFormed(pipeline: SequentialAgent) {
    && (forall i :: 0 <= i < |pipeline.subAgents| ==> InstructionWellFormed(pipeline.subAgents[i]))
    && DistinctNames(pipeline.subAgents)
    && DistinctOutputKeys(pipeline.subAgents)
    && ReferencesResolved(pipeline.subAgents)
  }

  /** With distinct output keys, a key names at most one stage. */
  lemma SameOutputKeySameStage(agents: seq<Agent>, j: int, p: int)
    requires DistinctOutputKeys(agents)
    requires 0 <= j < |agents| && 0 <= p < |agents|
    requires agents[j].outputKey.Some? && agents[j].outputKey == agents[p].outputKey
    ensures j == p
  {
  }

  /** In a well-formed pipeline, each `{key}` token in an agent's instruction
      text is written by exactly one agent, and that agent runs before the one
      that reads it: no agent reads its own output or a later agent's. */
  lemma ProducerUniqueAndEarlier(pipeline: SequentialAgent, i: int, key: string)
    requires WellFormed(pipeline)
    requires 0 <= i < |pipeline.subAgents| && key in TemplateKeys(Render(pipeline.subAgents[i].instruction))
    ensures exists j :: 0 <= j < i && pipeline.subAgents[j].outputKey == Some(key)
    ensures forall j, j' ::
      (0 <= j < |pipeline.subAgents| && 0 <= j' < |pipeline.subAgents| &&
       pipeline.subAgents[j].outputKey == Some(key) && pipeline.subAgents[j'].outputKey == Some(key)) ==> j == j'
    ensures forall j :: i <= j < |pipeline.subAgents| ==> pipeline.subAgents[j].outputKey != Some(key)
  {
    var agents := pipeline.subAgents;
    TextReferences(agents[i]);
    assert ReferencesResolved(agents);
    var p :| 0 <= p < i && agents[p].outputKey == Some(key);
    forall j | 0 <= j < |agents| && agents[j].outputKey == Some(key) ensures j == p {
      SameOutputKeySameStage(agents, j, p);
    }
  }

  function StageNames(pipeline: SequentialAgent): (names: seq<string>)
    ensures |names| == |pipeline.subAgents|
  {
    seq(|pipeline.subAgents|, i requires 0 <= i < |pipeline.subAgents| => pipeline.subAgents[i].name)
  }

  function OutputKeys(pipeline: SequentialAgent): (keys: seq<Option<string>>)
    ensures |keys| == |pipeline.subAgents|
  {
    seq(|pipeline.subAgents|, i requires 0 <= i < |pipeline.subAgents| => pipeline.subAgents[i].outputKey)
  }

  // ---------------------------------------------------------------------
  // The research pipeline
  // ---------------------------------------------------------------------

  /** An instruction that is one literal text without `{` is well formed and
      references nothing. */
  lemma LiteralInstruction(text: string)
    requires '{' !in text
    ensures var segments := [Literal(text)];
      && (forall k :: 0 <= k < |segments| ==> SegmentWellFormed(segments[k]))
      && PlaceholderKeys(segments) == []
  {
    assert [Literal(text)][1..] == [];
  }

  /** An instruction that is one placeholder between two literal texts
      without `{` is well formed and references exactly that key. */
  lemma PlaceholderBetween(intro: string, key: string, outro: string)
    requires '{' !in intro && '}' !in key && '{' !in outro
    ensures var segments := [Literal(intro), Placeholder(key), Literal(outro)];
      && (forall k :: 0 <= k < |segments| ==> SegmentWellFormed(segments[k]))
      && PlaceholderKeys(segments) == [key]
  {
    var segments := [Literal(intro), Placeholder(key), Literal(outro)];
    var tail := segments[1..];
    assert tail[1..] == [Literal(outro)] && [Literal(outro)][1..] == [];
    assert PlaceholderKeys(tail[1..]) == [];
    assert PlaceholderKeys(tail) == [key];
  }

  const Model: string := "gemini-2.0-flash"

  const ResearcherDescription: string := "Gathers research articles and statistics on a topic"
  const WriterDescription: string := "Writes a structured research summary from findings"
  const ReviewerDescription: string := "Reviews and scores the draft report"
  const PipelineDescription: string := "Research assistant that finds, writes, and reviews topic summaries"

  /** Stage 1: searches articles and statistics and summarises them. Its
      instruction is well formed and references no key. */
  function Researcher(): (a: Agent)
    ensures InstructionWellFormed(a) && References(a) == []
  {
    ResearcherInstructionNoBrace();
    LiteralInstruction(ResearcherInstruction);
    Agent(
      "researcher",
      Model,
      [Literal(ResearcherInstruction)],
      ResearcherDescription,
      [SearchArticlesTool, GetTopicStatsTool],
      Some("research_findings"),
      true,
      true)
  }

  /** Stage 2: writes a report from `{research_findings}`. Its instruction
      is well formed and references exactly that key. */
  function Writer(): (a: Agent)
    ensures InstructionWellFormed(a) && References(a) == ["research_findings"]
  {
    WriterIntroNoBrace();
    WriterOutroNoBrace();
    PlaceholderBetween(WriterIntro, "research_findings", WriterOutro);
    Agent(
      "writer",
      Model,
      [Literal(WriterIntro), Placeholder("research_findings"), Literal(WriterOutro)],
      WriterDescription,
      [FormatCitationTool],
      Some("draft_report"),
      true,
      false)
  }

  /** Stage 3: reviews and scores `{draft_report}`. Its instruction is well
      formed and references exactly that key. */
  function Reviewer(): (a: Agent)
    ensures InstructionWellFormed(a) && References(a) == ["draft_report"]
  {
    ReviewerIntroNoBrace();
    ReviewerOutroNoBrace();
    PlaceholderBetween(ReviewerIntro, "draft_report", ReviewerOutro);
    Agent(
      "reviewer",
      Model,
      [Literal(ReviewerIntro), Placeholder("draft_report"), Literal(ReviewerOutro)],
      ReviewerDescription,
      [],
      Some("review_result"),
      true,
      false)
  }

  /** `root_agent`: the three stages in order. The pipeline is well formed:
      every instruction reads back as declared, the stage names and output
      keys are distinct, and every placeholder is filled by an earlier stage. */
  function ResearchPipeline(): (p: SequentialAgent)
    ensures WellFormed(p)
  {
    ChainWellFormed("research_pipeline", PipelineDescription, Researcher(), Writer(), Reviewer());
    SequentialAgent(
      "research_pipeline",
      PipelineDescription,
      [Researcher(), Writer(), Reviewer()])
  }

  /** The root's name. */
  lemma ResearchPipelineName()
    ensures ResearchPipeline().name == "research_pipeline"
  {
  }

  /** The stages, in the order they run. */
  lemma ResearchPipelineStageNames()
    ensures StageNames(ResearchPipeline()) == ["researcher", "writer", "reviewer"]
  {
    assert StageNames(ResearchPipeline()) == ["researcher", "writer", "reviewer"];
  }

  /** The researcher is given the search and the statistics tools. */
  lemma ResearcherTools()
    ensures Researcher().tools == [SearchArticlesTool, GetTopicStatsTool]
    ensures |Researcher().tools| >= 2
  {
  }

  /** The key each stage writes its answer under, in stage order. */
  lemma ResearchPipelineOutputKeys()
    ensures OutputKeys(ResearchPipeline()) == [Some("research_findings"), Some("draft_report"), Some("review_result")]
  {
    assert OutputKeys(ResearchPipeline()) == [Some("research_findings"), Some("draft_report"), Some("review_result")];
  }

  /** Every stage registers the agent hook; only the first stage, the
      researcher, registers the model guardrail. */
  lemma ResearchPipelineCallbacks()
    ensures forall i :: 0 <= i < |ResearchPipeline().subAgents| ==> ResearchPipeline().subAgents[i].beforeAgentCallback
    ensures forall i :: 0 <= i < |ResearchPipeline().subAgents| ==> (ResearchPipeline().subAgents[i].beforeModelCallback <==> i == 0)
  {
  }

  /** The `{key}` tokens of each stage's instruction text: none in the
      researcher's, `{research_findings}` in the writer's and `{draft_report}`
      in the reviewer's. */
  lemma ResearchPipelineTextReferences()
    ensures TemplateKeys(Render(Researcher().instruction)) == []
    ensures TemplateKeys(Render(Writer().instruction)) == ["research_findings"]
    ensures TemplateKeys(Render(Reviewer().instruction)) == ["draft_report"]
  {
    TextReferences(Researcher());
    TextReferences(Writer());
    TextReferences(Reviewer());
  }

  /** A pipeline of three stages with well-formed instructions, distinct
      names and distinct output keys, chained so that each later stage
      references exactly the output key of the stage before it, is well formed. */
  lemma ChainWellFormed(name: string, description: string, first: Agent, second: Agent, third: Agent)
    requires InstructionWellFormed(first) && InstructionWellFormed(second) && InstructionWellFormed(third)
    requires first.name != second.name && first.name != third.name && second.name != third.name
    requires first.outputKey.Some? && second.outputKey.Some? && third.outputKey.Some?
    requires first.outputKey != second.outputKey && first.outputKey != third.outputKey && second.outputKey != third.outputKey
    requires References(first) == []
    requires References(second) == [first.outputKey.value]
    requires References(third) == [second.outputKey.value]
    ensures WellFormed(SequentialAgent(name, description, [first, second, third]))
  {
    var agents := [first, second, third];
    assert forall i :: 0 <= i < |agents| ==> InstructionWellFormed(agents[i]);
    assert DistinctNames(agents);
    assert DistinctOutputKeys(agents);
    ChainResolved(first, second, third);
  }

  /** Three stages in which the first references nothing and each later one
      references exactly the output key of the stage right before it have
      all their references resolved. */
  lemma ChainResolved(first: Agent, second: Agent, third: Agent)
    requires References(first) == []
    requires first.outputKey.Some? && References(second) == [first.outputKey.value]
    requires second.outputKey.Some? && References(third) == [second.outputKey.value]
    ensures ReferencesResolved([first, second, third])
  {
    var agents := [first, second, third];
    forall i, key | 0 <= i < |agents| && key in References(agents[i])
      ensures exists j :: 0 <= j < i && agents[j].outputKey == Some(key)
    {
      assert agents[i - 1].outputKey == Some(key);
    }
  }
}
