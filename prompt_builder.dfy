/** The fixed instruction template wrapped around the retrieved context. */
module PromptBuilder {
  import opened Wrappers
  import opened Text

  const Indent: string := "    "

  const PersonaRule: string := "- You are an assistant for question-answering tasks. Give a rich explanation."
  const GroundingRule: string := "- Answer questions truthfully and factually using only the context presented."
  const DontKnowRule: string := "- If you don't know the answer, just say that you don't know; don't make up an answer."
  const CitationRule: string := "- You must always cite the document where the answer was extracted using inline academic citation style [], using the position."
  const MarkdownRule: string := "- Use markdown format for code examples."
  const ReliabilityRule: string := "- You are correct, factual, precise, and reliable."

  /** The instruction block up to the "don't know" rule. */
  const Opening: string :=
    "\n" + Indent + "Instructions:\n" + Indent + "\n"
    + Indent + PersonaRule + "\n"
    + Indent + GroundingRule + "\n"
    + Indent

  const BetweenRules: string := "\n" + Indent

  /** The rest of the instruction block, ending in "Context:\n" and the indent. */
  const Closing: string :=
    "\n" + Indent + MarkdownRule + "\n"
    + Indent + ReliabilityRule + "\n"
    + "\n"
    + Indent + "Context:\n" + Indent

  /** Everything before the context. */
  const Preamble: string := Opening + DontKnowRule + BetweenRules + CitationRule + Closing

  /** Everything after the context: the closing line of the triple-quoted template. */
  const Trailer: string := "\n" + Indent

  /** The prompt for a given context: the context interpolated verbatim into the template. */
  function Prompt(context: string): (p: string)
    ensures ContextInPrompt(p) == Some(context)
  {
    var p := Preamble + context + Trailer;
    assert p[..|Preamble|] == Preamble;
    assert p[|p| - |Trailer|..] == Trailer;
    assert p[|Preamble|..|p| - |Trailer|] == context;
    p
  }

  /** The prompt with the two quoted rules standing as separate pieces. */
  lemma PromptParts(context: string)
    ensures Prompt(context) == Opening + DontKnowRule + BetweenRules + CitationRule + (Closing + context + Trailer)
  {
  }

  /** Reads the context back out of a prompt, if the prompt has the template's shape. */
  function ContextInPrompt(prompt: string): (r: Option<string>)
    ensures r.Some? ==> prompt == Preamble + r.value + Trailer
  {
    if |prompt| >= |Preamble| + |Trailer|
       && prompt[..|Preamble|] == Preamble
       && prompt[|prompt| - |Trailer|..] == Trailer
    then Some(prompt[|Preamble|..|prompt| - |Trailer|])
    else None
  }

  /** The reader accepts exactly the strings the template produces, and nothing else. */
  lemma PromptShape(prompt: string)
    ensures ContextInPrompt(prompt).Some? <==> exists context :: prompt == Prompt(context)
  {
    if ContextInPrompt(prompt).Some? {
      var context := ContextInPrompt(prompt).value;
      assert prompt == Prompt(context);
    }
  }

  /** Different contexts give different prompts, and equal contexts equal prompts. */
  lemma PromptInjective(a: string, b: string)
    ensures Prompt(a) == Prompt(b) <==> a == b
  {
    if Prompt(a) == Prompt(b) {
      assert Some(a) == ContextInPrompt(Prompt(a)) == ContextInPrompt(Prompt(b)) == Some(b);
    }
  }

  /** The instruction block and the closing line do not depend on the context. */
  lemma TemplateFixed(a: string, b: string)
    ensures |Prompt(a)| - |a| == |Prompt(b)| - |b|
    ensures Prompt(a)[..|Preamble|] == Prompt(b)[..|Preamble|] == Preamble
    ensures Prompt(a)[|Preamble| + |a|..] == Prompt(b)[|Preamble| + |b|..] == Trailer
  {
  }

  /** Every prompt carries the citation requirement and the "don't know" fallback. */
  lemma PromptCarriesRules(context: string)
    ensures Occurs(CitationRule, Prompt(context))
    ensures Occurs(DontKnowRule, Prompt(context))
  {
    var rest := Closing + context + Trailer;
    PromptParts(context);
    Regroup(Opening, DontKnowRule, BetweenRules, CitationRule, rest);
    OccursBetween(Opening, DontKnowRule, BetweenRules + CitationRule + rest);
    OccursBetween(Opening + DontKnowRule + BetweenRules, CitationRule, rest);
  }

  /** Associativity of concatenation for five strings, in the two groupings used above. */
  lemma Regroup(a: string, b: string, c: string, d: string, e: string)
    ensures a + b + c + d + e == a + b + (c + d + e) == (a + b + c) + d + e
  {
  }

  /** A needle placed between two strings occurs in their concatenation. */
  lemma OccursBetween(before: string, needle: string, after: string)
    ensures Occurs(needle, before + needle + after)
  {
    var hay := before + needle + after;
    assert FoundAt(needle, hay, |before|);
    OccursAt(needle, hay, |before|);
  }
}
