/** The gateway to the generative-AI service, reduced to what it does with
    the service's answers. Each call to the SDK is replaced by its settled
    outcome, supplied by the caller: the response text the SDK resolved
    with, or the value it threw. `JSON.parse` is likewise a parameter.
    What is modelled is the post-processing (trimming, the empty-response
    rule, quote stripping, the content snippet, the choice of instruction
    template) and the error-wrapping convention: a cause that is an `Error`
    is rethrown as an `Error` whose message is
    `Failed to <task>. Details: <cause's message>`, any other cause as an
    `Error` with the call's fixed fallback message. */
module GeminiService {
  import opened Types
  import opened Text

  /** The message prefix every wrapped failure carries. */
  const FailedPrefix: string := "Failed to "

  /** `Failed to <task>. Details: <detail>`. */
  function FailureMessage(task: string, detail: string): (m: string)
    ensures |m| == |FailedPrefix| + |task| + 11 + |detail|
    ensures FailedPrefix <= m
    ensures m[|FailedPrefix|..|FailedPrefix| + |task|] == task
    ensures m[|FailedPrefix| + |task|..|m| - |detail|] == ". Details: "
    ensures m[|m| - |detail|..] == detail
  {
    var m := FailedPrefix + task + ". Details: " + detail;
    ThreePieces(FailedPrefix, task, ". Details: " + detail);
    ThreePieces(FailedPrefix + task, ". Details: ", detail);
    assert m == FailedPrefix + task + (". Details: " + detail);
    m
  }

  /** The failure a `catch` rethrows, always an `Error`: for an `Error`
      cause the wrapped message with the cause's message as detail, for any
      other value the call's fallback message. */
  function Failure(cause: Thrown, task: string, fallback: string): (e: Thrown)
    ensures e.ErrorObject?
    ensures cause.ErrorObject? ==> e.message == FailureMessage(task, cause.message)
    ensures cause.OtherValue? ==> e.message == fallback
  {
    match cause
    case ErrorObject(m) => ErrorObject(FailureMessage(task, m))
    case OtherValue => ErrorObject(fallback)
  }

  /** A `try` whose `catch` rethrows through `Failure`: a resolved outcome
      passes through, a rejection is reported as an `Error`. */
  function Caught<T>(outcome: Settled<T>, task: string, fallback: string): (r: Settled<T>)
    ensures outcome.Resolved? ==> r == outcome
    ensures outcome.Rejected? ==> r.Rejected? && r.reason.ErrorObject?
    ensures outcome.Rejected? && outcome.reason.ErrorObject? ==>
      r.reason.message == FailureMessage(task, outcome.reason.message)
    ensures outcome.Rejected? && outcome.reason.OtherValue? ==> r.reason.message == fallback
  {
    match outcome
    case Resolved(_) => outcome
    case Rejected(cause) => Rejected(Failure(cause, task, fallback))
  }

  /** The failure report of a task: for an `Error` cause it begins with
      `Failed to `, otherwise it is the fallback. */
  predicate Reported<T>(r: Settled<T>, fallback: string) {
    r.Rejected? ==> r.reason.ErrorObject? && (FailedPrefix <= r.reason.message || r.reason.message == fallback)
  }

  // ---------------------------------------------------------------------
  // runGemini: failures become answers

  const AiServiceFallback: string := "An unexpected error occurred while contacting the AI service."

  /** `runGemini(prompt)`: it never rejects. A failed request resolves with
      its failure report instead of the answer. */
  function RunGemini(response: Settled<string>): (r: Settled<string>)
    ensures r.Resolved?
    ensures response.Resolved? ==> r.value == response.value
    ensures response.Rejected? && response.reason.ErrorObject? ==>
      r.value == FailureMessage("get response from AI", response.reason.message)
    ensures response.Rejected? && response.reason.OtherValue? ==> r.value == AiServiceFallback
  {
    match response
    case Resolved(text) => Resolved(text)
    case Rejected(cause) => Resolved(Failure(cause, "get response from AI", AiServiceFallback).message)
  }

  // ---------------------------------------------------------------------
  // Lists returned as JSON: grammar suggestions and SEO suggestions

  /** A list answer read inside a `try` that reports through `Failure`: the
      answer is trimmed; a blank answer is the empty list and is never
      parsed; otherwise the trimmed answer is parsed, and a parse failure
      is reported like a failed request. */
  function ParseListResponse<T>(response: Settled<string>, parse: string -> Settled<seq<T>>, task: string, fallback: string): (r: Settled<seq<T>>)
    ensures Reported(r, fallback)
    ensures response.Resolved? && IsBlank(response.value) ==> r == Resolved([])
    ensures response.Resolved? && !IsBlank(response.value) && parse(Trim(response.value)).Resolved? ==>
      r == parse(Trim(response.value))
    ensures response.Resolved? && !IsBlank(response.value) && parse(Trim(response.value)).Rejected? ==>
      r == Rejected(Failure(parse(Trim(response.value)).reason, task, fallback))
    ensures response.Rejected? ==> r == Rejected(Failure(response.reason, task, fallback))
  {
    match response
    case Rejected(cause) => Rejected(Failure(cause, task, fallback))
    case Resolved(text) =>
      var jsonText := Trim(text);
      if jsonText == [] then Resolved([]) else Caught(parse(jsonText), task, fallback)
  }

  const GrammarFallback: string := "An unexpected error occurred during grammar check."

  /** `checkGrammar(text)` after the request. */
  function CheckGrammar(response: Settled<string>, parse: string -> Settled<seq<GrammarSuggestion>>): (r: Settled<seq<GrammarSuggestion>>)
    ensures Reported(r, GrammarFallback)
    ensures response.Resolved? && IsBlank(response.value) ==> r == Resolved([])
    ensures response.Rejected? && response.reason.ErrorObject? ==>
      r.Rejected? && r.reason.message == FailureMessage("check grammar", response.reason.message)
  {
    ParseListResponse(response, parse, "check grammar", GrammarFallback)
  }

  const SeoFallback: string := "An unexpected error occurred during SEO analysis."

  /** `analyzeSeo(article)` after the request. */
  function AnalyzeSeo(response: Settled<string>, parse: string -> Settled<seq<SeoSuggestion>>): (r: Settled<seq<SeoSuggestion>>)
    ensures Reported(r, SeoFallback)
    ensures response.Resolved? && IsBlank(response.value) ==> r == Resolved([])
    ensures response.Rejected? && response.reason.ErrorObject? ==>
      r.Rejected? && r.reason.message == FailureMessage("analyze SEO", response.reason.message)
  {
    ParseListResponse(response, parse, "analyze SEO", SeoFallback)
  }

  /** A blank answer gives an empty list whatever the parser would have done with it. */
  lemma BlankResponseIsNotParsed<T>(text: string, parse1: string -> Settled<seq<T>>, parse2: string -> Settled<seq<T>>, task: string, fallback: string)
    requires IsBlank(text)
    ensures ParseListResponse(Resolved(text), parse1, task, fallback) == ParseListResponse(Resolved(text), parse2, task, fallback) == Resolved([])
  {
  }

  // ---------------------------------------------------------------------
  // modifyText: one instruction template per action

  /** The action's name as the union type spells it. */
  function ActionName(action: TextModificationAction): (s: string)
    ensures |s| > 0
    ensures action.Expand? ==> s == "expand"
    ensures action.Shorten? ==> s == "shorten"
    ensures action.Rewrite? ==> s == "rewrite"
  {
    match action
    case Expand => "expand"
    case Shorten => "shorten"
    case Rewrite => "rewrite"
  }

  /** The three templates, each written as its verb, the words every
      template shares, what the action should achieve, and the closing
      request for the result alone. */
  const ExpandInstruction: string := "Expand" + " the following text" + ", making it more detailed and descriptive, while maintaining the original tone. " + "Return only the expanded text:"
  const ShortenInstruction: string := "Shorten" + " the following text" + ", making it more concise and to the point, while preserving the key message. " + "Return only the shortened text:"
  const RewriteInstruction: string := "Rewrite" + " the following text" + " to improve its clarity, style, and engagement. Offer a fresh perspective without losing the core meaning. " + "Return only the rewritten text:"

  /** The verb an instruction opens with. */
  function Verb(action: TextModificationAction): string {
    match action
    case Expand => "Expand"
    case Shorten => "Shorten"
    case Rewrite => "Rewrite"
  }

  /** The sentence an instruction closes with: return only the expanded,
      shortened or rewritten text. */
  function Closing(action: TextModificationAction): string {
    match action
    case Expand => "Return only the expanded text:"
    case Shorten => "Return only the shortened text:"
    case Rewrite => "Return only the rewritten text:"
  }

  /** The instruction of the template each action selects. It opens with
      the action's verb applied to "the following text" and closes by
      asking for only the resulting text. */
  function Instruction(action: TextModificationAction): (s: string)
    ensures action.Expand? ==> s == ExpandInstruction
    ensures action.Shorten? ==> s == ShortenInstruction
    ensures action.Rewrite? ==> s == RewriteInstruction
    ensures Verb(action) + " the following text" <= s
    ensures |Closing(action)| <= |s| && s[|s| - |Closing(action)|..] == Closing(action)
  {
    match action
    case Expand => ExpandInstruction
    case Shorten => ShortenInstruction
    case Rewrite => RewriteInstruction
  }

  /** The prompt of `modifyText`: the action's instruction, a blank line and
      the text in double quotes. */
  function ModifyPrompt(text: string, action: TextModificationAction): (p: string)
    ensures |p| == |Instruction(action)| + 4 + |text|
    ensures p[..|Instruction(action)|] == Instruction(action)
    ensures p[|Instruction(action)|..|Instruction(action)| + 3] == "\n\n\""
    ensures p[|Instruction(action)| + 3..|p| - 1] == text
    ensures p[|p| - 1] == '"'
  {
    var instruction := Instruction(action);
    QuotedAfter(instruction, text);
    instruction + "\n\n\"" + text + "\""
  }

  lemma QuotedAfter(instruction: string, text: string)
    ensures var p := instruction + "\n\n\"" + text + "\"";
      && |p| == |instruction| + 4 + |text|
      && p[..|instruction|] == instruction
      && p[|instruction|..|instruction| + 3] == "\n\n\""
      && p[|instruction| + 3..|p| - 1] == text
      && p[|p| - 1] == '"'
  {
    var p := instruction + "\n\n\"" + text + "\"";
    assert p == instruction + ("\n\n\"" + text + "\"");
    ThreePieces(instruction, "\n\n\"", text + "\"");
    assert p == instruction + "\n\n\"" + (text + "\"");
  }

  /** Each action selects its own template and the prompt carries the whole
      text: different actions or different texts give different prompts. */
  lemma ModifyPromptInjective(text1: string, action1: TextModificationAction, text2: string, action2: TextModificationAction)
    requires ModifyPrompt(text1, action1) == ModifyPrompt(text2, action2)
    ensures action1 == action2 && text1 == text2
  {
    PromptOpensWithVerb(text1, action1);
    PromptOpensWithVerb(text2, action2);
    VerbsDiffer(action1, action2);
    var p, n := ModifyPrompt(text1, action1), |Instruction(action1)|;
    assert p == ModifyPrompt(text2, action1);
    assert text1 == p[n + 3..|p| - 1] == text2;
  }

  /** The three verbs begin with different letters. */
  lemma VerbsDiffer(action1: TextModificationAction, action2: TextModificationAction)
    requires Verb(action1)[0] == Verb(action2)[0]
    ensures action1 == action2
  {
  }

  /** A prompt begins with the first letter of its action's verb. */
  lemma PromptOpensWithVerb(text: string, action: TextModificationAction)
    ensures ModifyPrompt(text, action)[0] == Verb(action)[0]
  {
    var i := Instruction(action);
    assert ModifyPrompt(text, action)[..|i|] == i;
  }

  /** `modifyText(text, action)` after the request: the answer is returned
      untrimmed; failures name the action. */
  function ModifyText(action: TextModificationAction, response: Settled<string>): (r: Settled<string>)
    ensures Reported(r, "An unexpected error occurred during text " + ActionName(action) + ".")
    ensures response.Resolved? ==> r == response
    ensures response.Rejected? && response.reason.ErrorObject? ==>
      r.Rejected? && r.reason.message == FailureMessage(ActionName(action) + " text", response.reason.message)
  {
    Caught(response, ActionName(action) + " text", "An unexpected error occurred during text " + ActionName(action) + ".")
  }

  // ---------------------------------------------------------------------
  // generateArticle

  const ArticleFallback: string := "An unexpected error occurred during article generation."

  /** `generateArticle(params)` after the request: the trimmed answer is
      parsed (an empty answer is parsed too, and the parser's failure is
      reported like a failed request). */
  function GenerateArticle(response: Settled<string>, parse: string -> Settled<GeneratedArticle>): (r: Settled<GeneratedArticle>)
    ensures Reported(r, ArticleFallback)
    ensures response.Resolved? && parse(Trim(response.value)).Resolved? ==> r == parse(Trim(response.value))
    ensures response.Resolved? && parse(Trim(response.value)).Rejected? ==>
      r == Rejected(Failure(parse(Trim(response.value)).reason, "generate article", ArticleFallback))
    ensures response.Rejected? ==> r == Rejected(Failure(response.reason, "generate article", ArticleFallback))
  {
    match response
    case Rejected(cause) => Rejected(Failure(cause, "generate article", ArticleFallback))
    case Resolved(text) => Caught(parse(Trim(text)), "generate article", ArticleFallback)
  }

  // ---------------------------------------------------------------------
  // generateSeoTitle

  /** The first 500 characters of the content, or all of it when shorter. */
  function ContentSnippet(content: string): (r: string)
    ensures |r| == if |content| < 500 then |content| else 500
    ensures r <= content
  {
    Substring(content, 0, 500)
  }

  const TitleInstruction: string := "Based on the following article goal and content, generate a compelling and SEO-friendly title. The title should be concise, attention-grabbing, and relevant to the content. Return only the title, with no extra text or quotation marks."

  /** The layout of the title prompt: the instruction, the goal under a
      `**Goal:**` label, and the snippet under a `**Content Snippet:**`
      label followed by `...`, each piece at its offset. */
  predicate TitleLayout(p: string, instruction: string, goal: string, snippet: string) {
    var n, g := |instruction|, |goal|;
    && |p| == n + 12 + g + 23 + |snippet| + 3
    && p[..n] == instruction
    && p[n..n + 12] == "\n\n**Goal:** "
    && p[n + 12..n + 12 + g] == goal
    && p[n + 12 + g..n + 35 + g] == "\n\n**Content Snippet:**\n"
    && p[n + 35 + g..|p| - 3] == snippet
    && p[|p| - 3..] == "..."
  }

  /** The title prompt: the fixed instruction, the goal and the content snippet. */
  function TitlePrompt(goal: string, content: string): (p: string)
    ensures TitleLayout(p, TitleInstruction, goal, ContentSnippet(content))
  {
    Labelled(TitleInstruction, goal, ContentSnippet(content))
  }

  /** An instruction followed by the labelled goal and snippet. */
  function Labelled(instruction: string, goal: string, snippet: string): (p: string)
    ensures TitleLayout(p, instruction, goal, snippet)
  {
    TitlePieces(instruction, "\n\n**Goal:** ", goal, "\n\n**Content Snippet:**\n", snippet, "...");
    instruction + "\n\n**Goal:** " + goal + "\n\n**Content Snippet:**\n" + snippet + "..."
  }

  /** Each of six concatenated pieces sits at its offset. */
  lemma TitlePieces(a: string, b: string, c: string, d: string, e: string, f: string)
    ensures var p := a + b + c + d + e + f;
      && |p| == |a| + |b| + |c| + |d| + |e| + |f|
      && p[..|a|] == a
      && p[|a|..|a| + |b|] == b
      && p[|a| + |b|..|a| + |b| + |c|] == c
      && p[|a| + |b| + |c|..|a| + |b| + |c| + |d|] == d
      && p[|a| + |b| + |c| + |d|..|p| - |f|] == e
      && p[|p| - |f|..] == f
  {
    var abc := a + b + c;
    var p := a + b + c + d + e + f;
    ThreePieces(a, b, c);
    ThreePieces(abc, d, e + f);
    assert p == abc + d + (e + f);
    ThreePieces(abc + d, e, f);
    assert p[..|abc|] == abc;
    assert p[..|a|] == abc[..|a|];
    assert p[|a|..|a| + |b|] == abc[|a|..|a| + |b|];
    assert p[|a| + |b|..|abc|] == abc[|a| + |b|..];
  }

  /** The title prompt sees only the first 500 characters of the content:
      whatever follows them does not change it. */
  lemma TitlePromptIgnoresTail(goal: string, content: string, tail: string)
    requires |content| >= 500
    ensures TitlePrompt(goal, content + tail) == TitlePrompt(goal, content)
  {
    assert (content + tail)[..500] == content[..500];
  }

  /** The quote stripping of a generated title: one leading and one
      trailing double quote are removed (a lone `"` is removed once). */
  function StripWrappingQuotes(s: string): (r: string)
    ensures (s == [] || (s[0] != '"' && s[|s| - 1] != '"')) ==> r == s
    ensures |s| >= 2 && s[0] == '"' && s[|s| - 1] == '"' ==> r == s[1..|s| - 1]
    ensures |s| >= 1 && s[0] == '"' && s[|s| - 1] != '"' ==> r == s[1..]
    ensures |s| >= 1 && s[0] != '"' && s[|s| - 1] == '"' ==> r == s[..|s| - 1]
    ensures s == "\"" ==> r == []
  {
    var afterLeading := if |s| > 0 && s[0] == '"' then s[1..] else s;
    if |afterLeading| > 0 && afterLeading[|afterLeading| - 1] == '"' then afterLeading[..|afterLeading| - 1]
    else afterLeading
  }

  /** Quoting a title and stripping the quotes gives the title back, even
      when it holds quotes of its own. */
  lemma StripQuotedTitle(title: string)
    ensures StripWrappingQuotes("\"" + title + "\"") == title
  {
    var s := "\"" + title + "\"";
    assert s[1..|s| - 1] == title;
  }

  const TitleFallback: string := "An unexpected error occurred during title generation."

  /** `generateSeoTitle(data)` after the request: the answer trimmed, then
      its wrapping quotes removed. */
  function GenerateSeoTitle(response: Settled<string>): (r: Settled<string>)
    ensures Reported(r, TitleFallback)
    ensures response.Resolved? ==> r == Resolved(StripWrappingQuotes(Trim(response.value)))
    ensures response.Rejected? ==> r == Rejected(Failure(response.reason, "generate SEO title", TitleFallback))
  {
    match response
    case Resolved(text) => Resolved(StripWrappingQuotes(Trim(text)))
    case Rejected(cause) => Rejected(Failure(cause, "generate SEO title", TitleFallback))
  }

  /** A title the service wraps in quotes and whitespace comes back bare. */
  lemma SeoTitleUnwrapped(lead: string, title: string, trail: string)
    requires forall i :: 0 <= i < |lead| ==> IsSpace(lead[i])
    requires forall i :: 0 <= i < |trail| ==> IsSpace(trail[i])
    ensures GenerateSeoTitle(Resolved(lead + "\"" + title + "\"" + trail)) == Resolved(title)
  {
    var quoted := "\"" + title + "\"";
    assert lead + "\"" + title + "\"" + trail == lead + quoted + trail;
    TrimAround(lead, quoted, trail);
    StripQuotedTitle(title);
  }

  // ---------------------------------------------------------------------
  // The remaining calls

  const TrendsFallback: string := "An unexpected error occurred while fetching trends."

  /** `fetchTrends(query)` after the request: the answer untouched. */
  function FetchTrends(response: Settled<string>): (r: Settled<string>)
    ensures Reported(r, TrendsFallback)
    ensures response.Resolved? ==> r == response
    ensures response.Rejected? ==> r == Rejected(Failure(response.reason, "fetch trends", TrendsFallback))
  {
    Caught(response, "fetch trends", TrendsFallback)
  }

  const ImagePromptFailure: string := FailedPrefix + "create image prompt."

  /** `summarizeForImagePrompt(text)` after the request: every failure is
      reported with the same message, whatever its cause. */
  function SummarizeForImagePrompt(response: Settled<string>): (r: Settled<string>)
    ensures response.Resolved? ==> r == response
    ensures response.Rejected? ==> r == Rejected(ErrorObject(ImagePromptFailure))
  {
    match response
    case Resolved(_) => response
    case Rejected(_) => Rejected(ErrorObject(ImagePromptFailure))
  }

  const ImageFallback: string := "An unexpected error occurred during image generation."

  /** `generateImage(prompt)` after the request: the first image's base64
      bytes. A missing image makes the property access throw inside the
      `try`, which the outcome's rejection covers. */
  function GenerateImage(response: Settled<string>): (r: Settled<string>)
    ensures Reported(r, ImageFallback)
    ensures response.Resolved? ==> r == response
    ensures response.Rejected? ==> r == Rejected(Failure(response.reason, "generate image", ImageFallback))
  {
    Caught(response, "generate image", ImageFallback)
  }

  const DescriptionFailure: string := FailedPrefix + "generate image description."

  /** `generateImageDescription(imagePrompt)` after the request: the answer
      trimmed; every failure reported with the same message. */
  function GenerateImageDescription(response: Settled<string>): (r: Settled<string>)
    ensures response.Resolved? ==> r.Resolved? && r.value == Trim(response.value)
    ensures response.Resolved? ==> r.value == [] || (!IsSpace(r.value[0]) && !IsSpace(r.value[|r.value| - 1]))
    ensures response.Rejected? ==> r == Rejected(ErrorObject(DescriptionFailure))
  {
    match response
    case Resolved(text) => Resolved(Trim(text))
    case Rejected(_) => Rejected(ErrorObject(DescriptionFailure))
  }

  const TranslateFallback: string := "An unexpected error occurred during translation."

  /** `translateText(text, language)` after the request: the answer trimmed. */
  function TranslateText(response: Settled<string>): (r: Settled<string>)
    ensures Reported(r, TranslateFallback)
    ensures response.Resolved? ==> r.Resolved? && r.value == Trim(response.value)
    ensures response.Resolved? ==> r.value == [] || (!IsSpace(r.value[0]) && !IsSpace(r.value[|r.value| - 1]))
    ensures response.Rejected? ==> r == Rejected(Failure(response.reason, "translate text", TranslateFallback))
  {
    match response
    case Resolved(text) => Resolved(Trim(text))
    case Rejected(cause) => Rejected(Failure(cause, "translate text", TranslateFallback))
  }

  lemma PrefixOfConcat(a: string, b: string)
    ensures a <= a + b
  {
  }

  /** Every gateway call except `runGemini` rejects only with an `Error`
      whose message begins `Failed to ` when the request failed with an
      `Error`; the two calls with fixed messages do so for every cause. */
  lemma FailuresAreReported(response: Settled<string>, action: TextModificationAction)
    requires response.Rejected? && response.reason.ErrorObject?
    ensures FailedPrefix <= ModifyText(action, response).reason.message
    ensures FailedPrefix <= FetchTrends(response).reason.message
    ensures FailedPrefix <= GenerateSeoTitle(response).reason.message
    ensures FailedPrefix <= GenerateImage(response).reason.message
    ensures FailedPrefix <= TranslateText(response).reason.message
    ensures FailedPrefix <= SummarizeForImagePrompt(response).reason.message
    ensures FailedPrefix <= GenerateImageDescription(response).reason.message
  {
    PrefixOfConcat(FailedPrefix, "create image prompt.");
    PrefixOfConcat(FailedPrefix, "generate image description.");
  }
}
