# Research assistant agent: a Dafny model

This project models the research assistant example, which is a multi-agent application built on the agent framework.

- **Tools.** Three tool functions: a canned article search, topic statistics and citation formatting.
- **Callbacks.** Two callbacks: a hook that runs before each agent and a safety guardrail that runs before each model call.
- **Pipeline.** A static pipeline of three agents run in sequence: researcher, writer, reviewer. Each agent writes its answer to the session state under an output key. A later agent's instruction names an earlier answer with a `{key}` placeholder.

Each part is a pure computation or constant data, so the model is datatypes, functions and lemmas. The files are:

- `wrappers.dfy`: the `Option` type, used for attributes that may be missing or `None`.
- `text.dfy`: the string operations the source relies on.
  - Substring search, which is Python's `in`.
  - Upper-casing, which is `str.upper`, restricted to ASCII.
  - Decimal text of an integer, which is `{year}` in an f-string, without Python's limit on the number of digits.
  - A parser for decimal text, used to read a printed year back.
- `tools.dfy`: `search_articles`, `get_topic_stats` and `format_citation`.
- `callbacks.dfy`: `before_agent_callback` and `before_model_callback`.
  - The request objects handed to the guardrail are small datatypes.
  - The guardrail's nested search is an exists-predicate over contents and parts.
- `instructions.dfy`: the three instruction texts, character for character.
- `pipeline.dfy`: the agent and sequential-agent declarations. Instructions are sequences of literal and placeholder segments.
  - A `{key}` reader recovers the placeholders from the rendered text.
  - Pipeline well-formedness, proved for the research pipeline:
    - names are distinct;
    - output keys are distinct;
    - every placeholder is the output key of an earlier stage.

Where the code and its own commentary differ, the model follows the code:

- **What the guardrail scans.** The comment at `agent.py:23` speaks of "the last user message". The loop at lines 25-29 scans every part of every content, whatever its role. `Callbacks.BlockedAnywhere` and `Callbacks.BlockedSplit` state the code's behaviour.
- **The range of `max_results`.** The docstring at `tools.py:12` gives a range of 1-10, but the code accepts any integer and slices with it. So zero gives no articles, and a negative value drops articles from the end, as Python's `[:n]` does. `Tools.SearchArticles` models this with no precondition.

## Model

| member | source | states |
|---|---|---|
| Text.Contains | examples/python/research_agent/agent.py:29 | Substring test (Python `in` on strings): true exactly when the pattern occurs at some index of the text. |
| Text.ContainsInfix | examples/python/research_agent/tools.py:19-20 | Text substituted into an f-string occurs in the result, at the length of the text before it. |
| Text.ToUpper | examples/python/research_agent/agent.py:29 | `str.upper()` on ASCII: the result has the same length and no lower-case letter. Each lower-case letter becomes its capital, and every other character stays as it was. |
| Text.NatDigitsRoundTrip | examples/python/research_agent/tools.py:84 | The decimal digits of a natural number are non-empty and all digits. They have no leading zero unless the number is 0, which is the single digit "0", and they read back as the number. |
| Text.Decimal | examples/python/research_agent/tools.py:84 | The text of `{year}`: a minus sign exactly for negative numbers, then one or more digits, with a leading zero only for 0, which prints as "0". |
| Text.DecimalRoundTrip | examples/python/research_agent/tools.py:84 | The decimal text of any integer, negative ones included, parses back to that integer. |
| Text.DecimalInjective | examples/python/research_agent/tools.py:84 | Different integers have different decimal texts. |
| Tools.TopicArticle | examples/python/research_agent/tools.py:18-23 | A catalogue entry has its fixed texts around the topic in its title and its summary. Its source and year are the given ones, and both its title and its summary mention the topic. |
| Tools.Catalogue | examples/python/research_agent/tools.py:17-36 | The catalogue has exactly three articles, and each mentions the topic in both its title and its summary. |
| Tools.CatalogueSourcesAndYears | examples/python/research_agent/tools.py:17-36 | The three articles come from "Journal of AI Research" (2024), "Nature Reviews" (2024) and "IEEE Transactions" (2023), in that order. |
| Tools.SliceStop | examples/python/research_agent/tools.py:39 | The end of Python's slice `[:stop]` never passes the length of the sequence. |
| Tools.SearchArticles | examples/python/research_agent/tools.py:7-42 | `search_articles` echoes the topic and reports `total_found` as 3. The articles are a prefix of the catalogue. There are `min(max_results, 3)` of them for a non-negative limit and `max(0, 3 + max_results)` for a negative one. Every article mentions the topic. |
| Tools.SearchDefaultReturnsAll | examples/python/research_agent/tools.py:7-39 | With the default `max_results = 3` the search returns the whole catalogue. |
| Tools.SearchOneReturnsFirst | examples/python/test_agent.py:18-20 | `max_results = 1` returns exactly the first catalogue article. |
| Tools.SearchMonotone | examples/python/research_agent/tools.py:39-40 | A search with a smaller non-negative limit returns a prefix of a larger one, with the same `total_found`. |
| Tools.GetTopicStats | examples/python/research_agent/tools.py:45-70 | `get_topic_stats` echoes the topic and reports the two random draws as the publication counts. The venue list is exactly Nature, Science, IEEE, ACM, and there are three trending subtopics, each containing the topic. |
| Tools.TopicStatsCountsPositive | examples/python/research_agent/tools.py:56-57 | For any draws of `randint(5000, 50000)` and `randint(500, 5000)` both counts are positive and the last year's count does not exceed the total. |
| Tools.FormatCitation | examples/python/research_agent/tools.py:73-84 | `format_citation` returns an opening quote, the title, `." `, the source, `, `, the decimal year and a final full stop. Each field is at its exact position, and the length leaves room for nothing else. |
| Tools.CitationYearRoundTrip | examples/python/research_agent/tools.py:84 | The year can be parsed back from a citation, given the lengths of the title and source. |
| Tools.CitationContainsFields | examples/python/research_agent/tools.py:84 | A citation contains its title, its source and the decimal text of its year. |
| Tools.CitationExample | examples/python/test_agent.py:45-47 | `format_citation("Test Paper", "Nature", 2024)` is `"Test Paper." Nature, 2024.` |
| Tools.DecimalText2024 | examples/python/test_agent.py:47 | The year 2024 prints as "2024". |
| Tools.CitationShowsFields | examples/python/test_agent.py:49-53 | The citation for ("AI Survey", "IEEE", 2023) contains "AI Survey", "IEEE" and "2023". |
| Tools.DecimalText2023 | examples/python/test_agent.py:53 | The year 2023 prints as "2023". |
| Callbacks.BeforeAgentCallback | examples/python/research_agent/agent.py:14-18 | The agent hook always returns `None`, so the agent proceeds. |
| Callbacks.PartTrips | examples/python/research_agent/agent.py:28-29 | A part trips the guardrail when its text is present and non-empty and its upper-cased form contains "BLOCKED". A tripping text is at least as long as the marker. |
| Callbacks.ScanParts | examples/python/research_agent/agent.py:27-29 | The inner scan finds a part exactly when some part has a non-empty text whose upper-cased form contains "BLOCKED". |
| Callbacks.ScanContents | examples/python/research_agent/agent.py:25-29 | The outer scan finds a hit exactly when some part of some content trips the guardrail. |
| Callbacks.BlockedReply | examples/python/research_agent/agent.py:32-35 | The replacement has role "model" and a single part whose text is "Request blocked by safety guardrail.". |
| Callbacks.BeforeModelCallback | examples/python/research_agent/agent.py:21-36 | The guardrail returns the replacement exactly when some part of some content trips it, and returns `None` otherwise. Missing requests, contents and parts count as empty. |
| Callbacks.BeforeModelIgnoresContext | examples/python/research_agent/agent.py:21-36 | The guardrail's answer does not depend on the callback context. |
| Callbacks.ProceedWithoutText | examples/python/research_agent/agent.py:28-29 | A request none of whose parts has a non-empty text passes. |
| Callbacks.ProceedOnMissingContents | examples/python/research_agent/agent.py:24-25 | A missing request, missing contents and empty contents all pass. |
| Callbacks.TextTripsIgnoringCase | examples/python/research_agent/agent.py:28-29 | Any text, the empty one included, trips the guardrail exactly when some seven consecutive characters spell "BLOCKED" in any mix of (ASCII) cases. |
| Callbacks.LowerAndMixedCaseTrip | examples/python/research_agent/agent.py:29 | "blocked" and "Blocked" trip the guardrail. |
| Callbacks.BlockedAnywhere | examples/python/research_agent/agent.py:25-29 | A tripping part in any content blocks the request, whatever comes before or after that content. |
| Callbacks.BlockedSplit | examples/python/research_agent/agent.py:25 | A list of contents is blocked exactly when one of its two halves is blocked. |
| Instructions.ResearcherInstructionNoBrace | examples/python/research_agent/agent.py:43-48 | The researcher's instruction opens no `{`. |
| Instructions.WriterIntroNoBrace | examples/python/research_agent/agent.py:60-63 | The writer's text before `{research_findings}` opens no `{`. |
| Instructions.WriterOutroNoBrace | examples/python/research_agent/agent.py:65-72 | The writer's text after `{research_findings}` opens no `{`. |
| Instructions.ReviewerIntroNoBrace | examples/python/research_agent/agent.py:83-84 | The reviewer's text before `{draft_report}` opens no `{`. |
| Instructions.ReviewerOutroNoBrace | examples/python/research_agent/agent.py:86-94 | The reviewer's text after `{draft_report}` opens no `{`. |
| Pipeline.KeyEnd | examples/python/research_agent/agent.py:64 | The end of a `{key}` token is the first `}` at or after the start, or the end of the text when there is none. |
| Pipeline.TemplateKeysSkipLiteral | examples/python/research_agent/agent.py:60-63 | Literal text without `{` adds no placeholder to what follows it. |
| Pipeline.TemplateKeysPlaceholder | examples/python/research_agent/agent.py:64 | A `{key}` token whose key has no `}` reads back as that key, followed by the keys of the rest. |
| Pipeline.TemplateKeysOfRender | examples/python/research_agent/agent.py:60-72 | Reading the `{key}` tokens back from a rendered instruction gives exactly its placeholders in order, when no literal opens `{` and no key holds `}`. |
| Pipeline.TextReferences | examples/python/research_agent/agent.py:60-72 | For a well-formed instruction, the `{key}` tokens of its text are the agent's declared references. |
| Pipeline.SameOutputKeySameStage | examples/python/research_agent/agent.py:51-96 | With distinct output keys, two stages that write the same key are the same stage. |
| Pipeline.ProducerUniqueAndEarlier | examples/python/research_agent/agent.py:101-105 | In a well-formed pipeline, every `{key}` in a stage's instruction text is written by exactly one stage, and that stage runs strictly earlier. No stage at or after the reader writes that key. |
| Pipeline.LiteralInstruction | examples/python/research_agent/agent.py:43-48 | An instruction made of one literal text without `{` is well formed and references nothing. |
| Pipeline.PlaceholderBetween | examples/python/research_agent/agent.py:60-72 | An instruction made of one placeholder between two literal texts without `{` is well formed and references exactly that key. |
| Pipeline.Researcher | examples/python/research_agent/agent.py:40-54 | The researcher agent's instruction is well formed and references no key. |
| Pipeline.Writer | examples/python/research_agent/agent.py:57-77 | The writer agent's instruction is well formed and references exactly research_findings. |
| Pipeline.Reviewer | examples/python/research_agent/agent.py:80-98 | The reviewer agent's instruction is well formed and references exactly draft_report. |
| Pipeline.ResearchPipeline | examples/python/research_agent/agent.py:101-105 | The root pipeline is well formed. Every instruction reads back as declared, the stage names and output keys are distinct, and every placeholder is the output key of an earlier stage. |
| Pipeline.ResearchPipelineName | examples/python/test_agent.py:57-60 | The root is named "research_pipeline". |
| Pipeline.ResearchPipelineStageNames | examples/python/test_agent.py:62-66 | The stages run as researcher, writer, reviewer, in that order. |
| Pipeline.ResearcherTools | examples/python/test_agent.py:68-70 | The researcher is given exactly the search and statistics tools, so at least two. |
| Pipeline.ResearchPipelineOutputKeys | examples/python/test_agent.py:72-76 | The output keys in stage order are research_findings, draft_report, review_result. |
| Pipeline.ResearchPipelineCallbacks | examples/python/research_agent/agent.py:40-98 | Every stage registers the agent hook, and only the first stage, the researcher, registers the model guardrail. |
| Pipeline.ResearchPipelineTextReferences | examples/python/research_agent/agent.py:43-94 | The `{key}` tokens of the instruction texts are: none for the researcher, `{research_findings}` for the writer and `{draft_report}` for the reviewer. |
| Pipeline.ChainResolved | examples/python/research_agent/agent.py:101-105 | Take three stages where the first references nothing and each later one references exactly the output key of the stage before it. All their references are resolved. |
| Pipeline.ChainWellFormed | examples/python/research_agent/agent.py:101-105 | Take three stages with well-formed instructions, distinct names and distinct output keys, where the first references nothing and each later one references the output key of the stage before it. The pipeline of them is well formed. |

## Left out

- `server.py` is not part of this model. It serves the agent over the network.
- Running the agents is left out, because it is done by the agent framework, not by this code. That covers:
  - calling the language model and dispatching tool calls;
  - writing each answer to the session state;
  - substituting state values into `{key}` placeholders.
  The pipeline is modelled only as static data.
- The framework's own placeholder syntax is not modelled. It includes identifier checks and optional `{key?}` placeholders. The model's `{key}` reader takes the text between a `{` and the next `}`.
- `before_agent_callback` prints the agent's name, which is I/O. The model keeps only its result.
- `search_articles` reports a `search_date` taken from the clock. The model leaves the field out.
- `get_topic_stats` draws random numbers.
  - The two `random.randint` results are parameters.
  - `growth_rate_percent` is left out, because it is a rounded floating-point `random.uniform` draw.
- Tools.GetTopicStats: does not restrict the draws to their ranges. Those ranges are a precondition only of `Tools.TopicStatsCountsPositive`.
- Text.Decimal: always returns a text. Since Python 3.11 and the September 2022 security releases of 3.7-3.10, `{year}` raises `ValueError` for an integer with more than 4300 digits, the default limit on converting integers to text. That limit is not modelled, so `Tools.FormatCitation` returns a citation for years where `format_citation` raises.
- Upper-casing covers ASCII letters only. Python's `str.upper` also maps non-ASCII letters, and some of them to several characters. This does not change the guardrail's decision. Python maps character by character, and only two non-ASCII characters upper-case to letters of "BLOCKED": U+FB02 (to "FL") and U+FB04 (to "FFL"). In both, the `L` follows an `F`, so neither can supply the "BL" of a marker. So `Callbacks.TextTripsIgnoringCase` gives the source's answer for every text.
- The guardrail's `hasattr` checks and `or []` fallbacks are modelled as `Option` fields. A missing attribute and a `None` value both mean "nothing to scan", as they do in the code.
- The guardrail's other attributes of requests, contents and parts are left out, and so are the callbacks' `**kwargs`. The code does not read them.
- The `model` field of each agent is carried as an uninterpreted string.
- The tool functions listed in an agent are tags. Their behaviour is modelled in `Tools`.
