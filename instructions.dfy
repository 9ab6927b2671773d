/** The instruction texts of the three research agents, character for
    character as the agents declare them. The writer's and the reviewer's
    are split around their one `{key}` placeholder, which module `Pipeline`
    declares. Each text is the concatenation of its lines, and the lemmas
    show, piece by piece, that no literal text of an instruction holds a `{`. */
module Instructions {

  const ResearcherInstructionPart1: string :=
    "You are a research " + "specialist. When given a " + "topic:\n"

  const ResearcherInstructionPart2: string :=
    "1. Use search_articles to " + "find relevant papers\n"

  const ResearcherInstructionPart3: string :=
    "2. Use get_topic_stats to " + "get publication statistics\n"

  const ResearcherInstructionPart4: string :=
    "3. Summarize your findings " + "concisely\n"
    + "\n"

  const ResearcherInstructionPart5: string :=
    "Always include specific " + "data from the tools in your " + "summary."

  /** The researcher's whole instruction. */
  const ResearcherInstruction: string :=
    ResearcherInstructionPart1 + ResearcherInstructionPart2 + ResearcherInstructionPart3 + ResearcherInstructionPart4 + ResearcherInstructionPart5

  lemma ResearcherInstructionPart1NoBrace() ensures '{' !in ResearcherInstructionPart1 { }

  lemma ResearcherInstructionPart2NoBrace() ensures '{' !in ResearcherInstructionPart2 { }

  lemma ResearcherInstructionPart3NoBrace() ensures '{' !in ResearcherInstructionPart3 { }

  lemma ResearcherInstructionPart4NoBrace() ensures '{' !in ResearcherInstructionPart4 { }

  lemma ResearcherInstructionPart5NoBrace() ensures '{' !in ResearcherInstructionPart5 { }

  lemma ResearcherInstructionNoBrace()
    ensures '{' !in ResearcherInstruction
  {
    ResearcherInstructionPart1NoBrace();
    ResearcherInstructionPart2NoBrace();
    ResearcherInstructionPart3NoBrace();
    ResearcherInstructionPart4NoBrace();
    ResearcherInstructionPart5NoBrace();
  }

  const WriterIntroPart1: string :=
    "You are a technical writer. " + "Based on the research " + "findings below,\n"

  const WriterIntroPart2: string :=
    "write a concise research " + "summary report (3-4 " + "paragraphs).\n"
    + "\n"

  const WriterIntroPart3: string :=
    "Research findings:\n"

  /** The writer's instruction up to `{research_findings}`. */
  const WriterIntro: string :=
    WriterIntroPart1 + WriterIntroPart2 + WriterIntroPart3

  lemma WriterIntroPart1NoBrace() ensures '{' !in WriterIntroPart1 { }

  lemma WriterIntroPart2NoBrace() ensures '{' !in WriterIntroPart2 { }

  lemma WriterIntroPart3NoBrace() ensures '{' !in WriterIntroPart3 { }

  lemma WriterIntroNoBrace()
    ensures '{' !in WriterIntro
  {
    WriterIntroPart1NoBrace();
    WriterIntroPart2NoBrace();
    WriterIntroPart3NoBrace();
  }

  const WriterOutroPart1: string :=
    "\n"
    + "\n"
    + "Include:\n"
    + "- Overview of the topic and " + "its significance\n"

  const WriterOutroPart2: string :=
    "- Key findings from the " + "articles\n"

  const WriterOutroPart3: string :=
    "- Publication trends and " + "statistics\n"

  const WriterOutroPart4: string :=
    "- Recommended areas for " + "further study\n"
    + "\n"

  const WriterOutroPart5: string :=
    "Use format_citation for any " + "article references."

  /** The writer's instruction after `{research_findings}`. */
  const WriterOutro: string :=
    WriterOutroPart1 + WriterOutroPart2 + WriterOutroPart3 + WriterOutroPart4 + WriterOutroPart5

  lemma WriterOutroPart1NoBrace() ensures '{' !in WriterOutroPart1 { }

  lemma WriterOutroPart2NoBrace() ensures '{' !in WriterOutroPart2 { }

  lemma WriterOutroPart3NoBrace() ensures '{' !in WriterOutroPart3 { }

  lemma WriterOutroPart4NoBrace() ensures '{' !in WriterOutroPart4 { }

  lemma WriterOutroPart5NoBrace() ensures '{' !in WriterOutroPart5 { }

  lemma WriterOutroNoBrace()
    ensures '{' !in WriterOutro
  {
    WriterOutroPart1NoBrace();
    WriterOutroPart2NoBrace();
    WriterOutroPart3NoBrace();
    WriterOutroPart4NoBrace();
    WriterOutroPart5NoBrace();
  }

  /** The reviewer's instruction up to `{draft_report}`. */
  const ReviewerIntro: string :=
    "You are a quality reviewer. " + "Review this draft report:\n"
    + "\n"

  lemma ReviewerIntroNoBrace() ensures '{' !in ReviewerIntro { }

  const ReviewerOutroPart1: string :=
    "\n"
    + "\n"
    + "Evaluate on:\n"

  const ReviewerOutroPart2: string :=
    "1. Accuracy - Are the facts " + "and citations correct?\n"

  const ReviewerOutroPart3: string :=
    "2. Clarity - Is it easy to " + "understand?\n"

  const ReviewerOutroPart4: string :=
    "3. Completeness - Does it " + "cover key aspects?\n"
    + "\n"

  const ReviewerOutroPart5: string :=
    "Provide a quality score " + "(1-10) and brief feedback.\n"

  const ReviewerOutroPart6: string :=
    "If the score is 8 or above, " + "approve with \"APPROVED\".\n"

  const ReviewerOutroPart7: string :=
    "Otherwise provide specific " + "improvements needed."

  /** The reviewer's instruction after `{draft_report}`. */
  const ReviewerOutro: string :=
    ReviewerOutroPart1 + ReviewerOutroPart2 + ReviewerOutroPart3 + ReviewerOutroPart4 + ReviewerOutroPart5 + ReviewerOutroPart6 + ReviewerOutroPart7

  lemma ReviewerOutroPart1NoBrace() ensures '{' !in ReviewerOutroPart1 { }

  lemma ReviewerOutroPart2NoBrace() ensures '{' !in ReviewerOutroPart2 { }

  lemma ReviewerOutroPart3NoBrace() ensures '{' !in ReviewerOutroPart3 { }

  lemma ReviewerOutroPart4NoBrace() ensures '{' !in ReviewerOutroPart4 { }

  lemma ReviewerOutroPart5NoBrace() ensures '{' !in ReviewerOutroPart5 { }

  lemma ReviewerOutroPart6NoBrace() ensures '{' !in ReviewerOutroPart6 { }

  lemma ReviewerOutroPart7NoBrace() ensures '{' !in ReviewerOutroPart7 { }

  lemma ReviewerOutroNoBrace()
    ensures '{' !in ReviewerOutro
  {
    ReviewerOutroPart1NoBrace();
    ReviewerOutroPart2NoBrace();
    ReviewerOutroPart3NoBrace();
    ReviewerOutroPart4NoBrace();
    ReviewerOutroPart5NoBrace();
    ReviewerOutroPart6NoBrace();
    ReviewerOutroPart7NoBrace();
  }

}
