/**
 * The summariser (backend/lib/summarizer.js): the prompts sent to the model,
 * the JSON span taken from its reply, and the instruction call.
 */
module Summarizer {
  import opened Wrappers
  import opened Text
  import Json
  import Gmail

  /** `anthropic.messages.create` for a prompt: the texts of the reply's content blocks, None when the call throws. */
  type Llm = string -> Option<seq<string>>

  /** `JSON.parse`: the parsed value, None when it throws. */
  type JsonParser = string -> Option<Json.Value>

  /** Why a model call produced no result. */
  datatype Failure =
    | ModelCallFailed   // messages.create threw
    | NoContent         // content[0] is missing, so reading its text throws
    | NoJsonObject      // 'Failed to parse summary response'
    | InvalidJson       // JSON.parse threw

  const SummaryBodyLimit: nat := 4000
  const InstructionBodyLimit: nat := 2000

  const SummaryPromptHead: string :=
    "You are an email assistant. Analyze this email and provide:\n"
    + "1. A concise summary (2-3 sentences)\n"
    + "2. Any action items or instructions found in the email\n"
    + "3. Priority level: high, medium, or low\n"
    + "4. Suggested response (if a reply seems needed, otherwise null)\n\n"
    + "Email:\nFrom: "

  const SummaryPromptTail: string :=
    "\n\nRespond in JSON format only, no other text:\n{\n"
    + "  \"summary\": \"...\",\n"
    + "  \"actionItems\": [\"...\"],\n"
    + "  \"priority\": \"high|medium|low\",\n"
    + "  \"suggestedReply\": \"...\" or null,\n"
    + "  \"category\": \"work|personal|newsletter|notification|spam|other\"\n}"

  /** The summary prompt: sender, subject, date, and the body cut to SummaryBodyLimit characters. */
  function SummaryPrompt(email: Gmail.Email): string
  {
    SummaryPromptHead + email.from + "\nSubject: " + email.subject + "\nDate: " + email.date + "\nBody:\n"
    + Take(email.body, SummaryBodyLimit) + SummaryPromptTail
  }

  /** The summary prompt contains the first SummaryBodyLimit characters of the body. */
  lemma SummaryPromptEmbedsBody(email: Gmail.Email)
    ensures IsInfix(Take(email.body, SummaryBodyLimit), SummaryPrompt(email))
  {
    var head := SummaryPromptHead + email.from + "\nSubject: " + email.subject + "\nDate: " + email.date + "\nBody:\n";
    var body := Take(email.body, SummaryBodyLimit);
    assert SummaryPrompt(email) == head + body + SummaryPromptTail;
    assert body <= SummaryPrompt(email)[|head|..];
  }

  /** Nothing of the body past its first SummaryBodyLimit characters reaches the prompt. */
  lemma SummaryPromptSeesOnlyPrefix(email: Gmail.Email, body: string)
    requires Take(body, SummaryBodyLimit) == Take(email.body, SummaryBodyLimit)
    ensures SummaryPrompt(email.(body := body)) == SummaryPrompt(email)
  {
  }

  /** Some '{' of `text` has a '}' after it, which is what `/\{[\s\S]*\}/` needs to match. */
  ghost predicate HasBracePair(text: string)
  {
    exists i, j :: 0 <= i < j < |text| && text[i] == '{' && text[j] == '}'
  }

  /** `text[i..j+1]` runs from the first '{' of `text` through its last '}'. */
  ghost predicate IsGreedySpan(text: string, i: int, j: int)
  {
    0 <= i < j < |text| && text[i] == '{' && text[j] == '}' && '{' !in text[..i] && '}' !in text[j + 1..]
  }

  /** `text.match(/\{[\s\S]*\}/)`: the greedy span from the first '{' through the last '}', if they are in that order. */
  function ExtractJson(text: string): (r: Option<string>)
    ensures r.Some? <==> HasBracePair(text)
    ensures r.Some? ==> exists i, j :: IsGreedySpan(text, i, j) && r.value == text[i..j + 1]
  {
    var open := IndexOf(text, '{');
    var close := LastIndexOf(text, '}');
    if open.Some? && close.Some? && open.value < close.value then
      assert IsGreedySpan(text, open.value, close.value);
      Some(text[open.value..close.value + 1])
    else
      assert !HasBracePair(text) by {
        forall i, j | 0 <= i < j < |text| && text[i] == '{'
          ensures text[j] != '}'
        {
          assert open.Some?;
          assert open.value <= i;
          if close.Some? && j > close.value {
            assert text[close.value + 1..][j - close.value - 1] == text[j];
          }
        }
      }
      None
  }

  /** The text of the reply's first content block, for a prompt. */
  function FirstText(llm: Llm, prompt: string): Result<string, Failure>
  {
    match llm(prompt)
    case None => Err(ModelCallFailed)
    case Some(blocks) => if blocks == [] then Err(NoContent) else Ok(blocks[0])
  }

  /**
   * `summarizeEmail`: the value JSON.parse gives for the span extracted from
   * the reply, returned as it is without any check of its shape.
   */
  function SummarizeEmail(email: Gmail.Email, llm: Llm, parse: JsonParser): (r: Result<Json.Value, Failure>)
    ensures r.Ok? <==> FirstText(llm, SummaryPrompt(email)).Ok?
                       && ExtractJson(FirstText(llm, SummaryPrompt(email)).value).Some?
                       && parse(ExtractJson(FirstText(llm, SummaryPrompt(email)).value).value).Some?
    ensures r.Ok? ==> Some(r.value) == parse(ExtractJson(FirstText(llm, SummaryPrompt(email)).value).value)
    ensures r == Err(NoJsonObject) <==> FirstText(llm, SummaryPrompt(email)).Ok?
                                        && !HasBracePair(FirstText(llm, SummaryPrompt(email)).value)
  {
    match FirstText(llm, SummaryPrompt(email))
    case Err(f) => Err(f)
    case Ok(text) =>
      match ExtractJson(text)
      case None => Err(NoJsonObject)
      case Some(span) =>
        match parse(span)
        case None => Err(InvalidJson)
        case Some(v) => Ok(v)
  }

  const InstructionPromptHead: string :=
    "You are an email assistant. Based on this instruction and email context, generate the appropriate output.\n\n"
    + "Instruction: "

  const InstructionPromptTail: string :=
    "\n\nProvide a helpful, professional response. If the instruction is to draft a reply, write a complete reply "
    + "email. If it's to summarize, provide a summary. If it's to extract info, extract it clearly."

  /** The instruction prompt: the instruction, sender, subject and the body cut to InstructionBodyLimit characters. */
  function InstructionPrompt(instruction: string, email: Gmail.Email): string
  {
    InstructionPromptHead + instruction + "\n\nEmail context:\nFrom: " + email.from + "\nSubject: " + email.subject
    + "\nBody: " + Take(email.body, InstructionBodyLimit) + InstructionPromptTail
  }

  /** The instruction prompt contains the instruction and the first InstructionBodyLimit characters of the body. */
  lemma InstructionPromptEmbeds(instruction: string, email: Gmail.Email)
    ensures IsInfix(instruction, InstructionPrompt(instruction, email))
    ensures IsInfix(Take(email.body, InstructionBodyLimit), InstructionPrompt(instruction, email))
  {
    var p := InstructionPrompt(instruction, email);
    var head := InstructionPromptHead + instruction + "\n\nEmail context:\nFrom: " + email.from + "\nSubject: "
                + email.subject + "\nBody: ";
    var body := Take(email.body, InstructionBodyLimit);
    assert p == head + body + InstructionPromptTail;
    assert body <= p[|head|..];
    assert instruction <= p[|InstructionPromptHead|..];
  }

  /** Nothing of the body past its first InstructionBodyLimit characters reaches the prompt. */
  lemma InstructionPromptSeesOnlyPrefix(instruction: string, email: Gmail.Email, body: string)
    requires Take(body, InstructionBodyLimit) == Take(email.body, InstructionBodyLimit)
    ensures InstructionPrompt(instruction, email.(body := body)) == InstructionPrompt(instruction, email)
  {
  }

  /** `processInstruction`: the text of the first content block of the reply, verbatim. */
  function ProcessInstruction(instruction: string, email: Gmail.Email, llm: Llm): (r: Result<string, Failure>)
    ensures r.Ok? <==> llm(InstructionPrompt(instruction, email)).Some? && llm(InstructionPrompt(instruction, email)).value != []
    ensures r.Ok? ==> r.value == llm(InstructionPrompt(instruction, email)).value[0]
  {
    FirstText(llm, InstructionPrompt(instruction, email))
  }
}
