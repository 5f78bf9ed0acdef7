/** The workspace's state and its handlers. Each asynchronous handler is
    split at its `await`: a `Begin` step that runs up to the request (the
    input guard, the loading flag, the fields it clears) and a `Finish`
    step that takes the request's settled outcome and runs the rest
    (`try` body or `catch`, then `finally`). Image generation awaits twice,
    so it has a middle step. The chat log only ever grows at its end,
    except that a new project resets it to one system message. */
module App {
  import opened Types
  import opened Text
  import opened Lists
  import Formatting
  import opened GeminiService

  datatype View = DashboardView | EditorView | SettingsView

  const InitialContent: string := "Start writing your next masterpiece here...\n\nUse the \"Generate\" tab in the tools panel to create a new article from a brief. You can also select text to see the new AI modification tools!"
  const Welcome: ChatMessage := ChatMessage(System, "Welcome to FaceWriter Assistant! How can I help you today?")
  const NewProjectStarted: ChatMessage := ChatMessage(System, "New project started. How can I help?")
  const TitleNeedsInput: ChatMessage := ChatMessage(System, "Please provide an article goal or some content before generating a title.")
  const ArticleSaved: string := "Article saved successfully!"
  const UnknownError: string := "An unknown error occurred."
  const ImageDataPrefix: string := "data:image/jpeg;base64,"

  /** The text a handler's `catch` reports: an `Error`'s own message, or a
      fixed message for any other thrown value. */
  function ErrorMessage(error: Thrown): (m: string)
    ensures error.ErrorObject? ==> m == error.message
    ensures error.OtherValue? ==> m == UnknownError
  {
    match error
    case ErrorObject(m) => m
    case OtherValue => UnknownError
  }

  /** The system message a `catch` appends: its heading, then the error's message. */
  function ErrorReport(heading: string, error: Thrown): (m: ChatMessage)
    ensures m.role == System
    ensures heading <= m.text && m.text[|heading|..] == ErrorMessage(error)
  {
    ChatMessage(System, heading + ErrorMessage(error))
  }

  /** The message an assistant request ends with: the answer as a model
      message, or an `Error: ` system message. */
  function ChatReply(outcome: Settled<string>): (m: ChatMessage)
    ensures m.role == Model <==> outcome.Resolved?
    ensures outcome.Resolved? ==> m.text == outcome.value
    ensures outcome.Rejected? ==> m.role == System
    ensures outcome.Rejected? ==> "Error: " <= m.text && m.text[7..] == ErrorMessage(outcome.reason)
  {
    match outcome
    case Resolved(answer) => ChatMessage(Model, answer)
    case Rejected(error) => ErrorReport("Error: ", error)
  }

  /** `runGemini` never rejects, so an assistant request always ends with a
      model message: the `catch` of the chat handlers cannot run. */
  lemma AssistantRepliesAsModel(response: Settled<string>)
    ensures ChatReply(RunGemini(response)).role == Model
  {
  }

  /** The chat text of a summarize request. */
  function SummarizeUserText(selectedText: string): (r: string)
    ensures Quoted(r, "Summarize the following text: \"", selectedText)
  {
    QuotedPieces("Summarize the following text: \"", selectedText);
    "Summarize the following text: \"" + selectedText + "\""
  }

  /** The prompt of a summarize request. */
  function SummarizePrompt(selectedText: string): (r: string)
    ensures Quoted(r, "Please summarize the following text:\n\n\"", selectedText)
  {
    QuotedPieces("Please summarize the following text:\n\n\"", selectedText);
    "Please summarize the following text:\n\n\"" + selectedText + "\""
  }

  /** `r` is the lead-in (which ends with the opening quote), the text and a closing quote. */
  predicate Quoted(r: string, lead: string, text: string) {
    && |r| == |lead| + |text| + 1
    && r[..|lead|] == lead
    && r[|lead|..|r| - 1] == text
    && r[|r| - 1] == '"'
  }

  lemma QuotedPieces(lead: string, text: string)
    ensures Quoted(lead + text + "\"", lead, text)
  {
    ThreePieces(lead, text, "\"");
  }

  /** The old body, a blank line, then the inserted text. */
  function InsertText(content: string, text: string): (r: string)
    ensures content <= r
    ensures |r| == |content| + 2 + |text|
    ensures r[|content|..|content| + 2] == "\n\n" && r[|content| + 2..] == text
  {
    content + "\n\n" + text
  }

  /** The first hundred space-separated words of the body, rejoined with
      spaces: the body up to (not including) its 100th space. It is a prefix of the body, holds at most
      100 space-separated words, and is the whole body when the body has at
      most 99 spaces; otherwise it holds exactly 99 spaces and stops just
      before a space of the body. */
  function ImagePromptSource(content: string): (r: string)
    ensures r <= content
    ensures multiset(r)[' '] <= 99
    ensures multiset(content)[' '] <= 99 ==> r == content
    ensures multiset(content)[' '] >= 100 ==>
      multiset(r)[' '] == 99 && |r| < |content| && content[|r|] == ' '
  {
    var words := Split(content, ' ');
    var k := if |words| < 100 then |words| else 100;
    SplitCount(content, ' ');
    FirstWords(content, k);
    Join(words[..k], " ")
  }

  /** Rejoining the first `k` words of the body gives a prefix of it with
      `k - 1` spaces: all of it when `k` is the number of words, and
      otherwise a prefix followed in the body by a space. */
  lemma FirstWords(content: string, k: nat)
    requires 1 <= k <= |Split(content, ' ')|
    ensures Join(Split(content, ' ')[..k], " ") <= content
    ensures multiset(Join(Split(content, ' ')[..k], " "))[' '] == k - 1
    ensures k == |Split(content, ' ')| ==> Join(Split(content, ' ')[..k], " ") == content
    ensures var prefix := Join(Split(content, ' ')[..k], " ");
      k < |Split(content, ' ')| ==> |prefix| < |content| && content[|prefix|] == ' '
  {
    var words := Split(content, ' ');
    JoinSplitPrefix(content, ' ', k);
    assert forall i :: 0 <= i < k ==> ' ' !in words[..k][i];
    JoinCount(words[..k], ' ');
    JoinSplit(content, ' ');
    if k == |words| {
      assert words[..k] == words;
    } else {
      JoinSplitAt(words, k, " ");
      var prefix := Join(words[..k], " ");
      assert content == prefix + " " + Join(words[k..], " ");
      assert content[|prefix|] == ' ';
    }
  }

  /** Keeps the suggestions whose `original` differs from `original`. */
  function Differs(original: string): GrammarSuggestion -> bool {
    (s: GrammarSuggestion) => s.original != original
  }

  /** The suggestions left after one is applied: every suggestion for the
      same original text goes, every other one stays. */
  function WithoutOriginal(suggestions: seq<GrammarSuggestion>, original: string): (r: seq<GrammarSuggestion>)
    ensures |r| <= |suggestions|
    ensures forall i :: 0 <= i < |r| ==> r[i].original != original && r[i] in suggestions
    ensures forall i :: 0 <= i < |suggestions| && suggestions[i].original != original ==> suggestions[i] in r
  {
    Filter(suggestions, Differs(original))
  }

  /** The suggestions that stay keep their relative order: the filter works piecewise. */
  lemma WithoutOriginalPiecewise(a: seq<GrammarSuggestion>, b: seq<GrammarSuggestion>, original: string)
    ensures WithoutOriginal(a + b, original) == WithoutOriginal(a, original) + WithoutOriginal(b, original)
  {
    FilterAppend(a, b, Differs(original));
  }

  /** Applying the only suggestion for its original text removes exactly
      that suggestion and leaves the others as they were, in order. */
  lemma ApplyRemovesOnlyIt(before: seq<GrammarSuggestion>, applied: GrammarSuggestion, after: seq<GrammarSuggestion>)
    requires forall i :: 0 <= i < |before| ==> before[i].original != applied.original
    requires forall i :: 0 <= i < |after| ==> after[i].original != applied.original
    ensures WithoutOriginal(before + [applied] + after, applied.original) == before + after
  {
    var keep := Differs(applied.original);
    FilterAppend(before + [applied], after, keep);
    FilterAppend(before, [applied], keep);
    FilterKeepsAll(before, keep);
    FilterKeepsAll(after, keep);
    assert Filter([applied], keep) == [] + Filter([applied][1..], keep);
    assert before + [] == before;
  }

  class AppState {
    var currentView: View
    var appSettings: AppSettings
    var editorTitle: string
    var editorContent: string
    var articleGoal: string
    var client: string
    var destination: Destination
    var saveStatus: string
    var chatMessages: seq<ChatMessage>
    var isAssistantLoading: bool
    var grammarSuggestions: seq<GrammarSuggestion>
    var isGrammarLoading: bool
    var activeLeftTool: string
    var isModifyingText: bool
    var isGeneratingArticle: bool
    var isGeneratingTitle: bool
    var trendsResult: string
    var isFetchingTrends: bool
    var imageUrl: string
    var imagePrompt: string
    var imageDescription: string
    var isGeneratingImage: bool
    var isGeneratingDescription: bool
    var seoSuggestions: seq<SeoSuggestion>
    var isAnalyzingSeo: bool
    var translatedContent: string
    var isTranslating: bool

    /** The chat log is never empty and opens with a system message. */
    predicate Valid()
      reads this`chatMessages
    {
      |chatMessages| >= 1 && chatMessages[0].role == System
    }

    /** The state the workspace starts in. */
    constructor()
      ensures Valid()
      ensures currentView == DashboardView
      ensures appSettings == AppSettings(Gemini, "", "", [Unsplash, Pexels])
      ensures editorTitle == "My First SEO Article" && editorContent == InitialContent
      ensures articleGoal == "" && client == "" && destination == ArticleBlog && saveStatus == ""
      ensures chatMessages == [Welcome] && grammarSuggestions == [] && seoSuggestions == []
      ensures activeLeftTool == "Generate"
      ensures trendsResult == "" && imageUrl == "" && imagePrompt == "" && imageDescription == ""
      ensures translatedContent == ""
      ensures !isAssistantLoading && !isGrammarLoading && !isModifyingText && !isGeneratingArticle
      ensures !isGeneratingTitle && !isFetchingTrends && !isGeneratingImage && !isGeneratingDescription
      ensures !isAnalyzingSeo && !isTranslating
    {
      currentView := DashboardView;
      appSettings := AppSettings(Gemini, "", "", [Unsplash, Pexels]);
      editorTitle := "My First SEO Article";
      editorContent := InitialContent;
      articleGoal := "";
      client := "";
      destination := ArticleBlog;
      saveStatus := "";
      chatMessages := [Welcome];
      isAssistantLoading := false;
      grammarSuggestions := [];
      isGrammarLoading := false;
      activeLeftTool := "Generate";
      isModifyingText := false;
      isGeneratingArticle := false;
      isGeneratingTitle := false;
      trendsResult := "";
      isFetchingTrends := false;
      imageUrl := "";
      imagePrompt := "";
      imageDescription := "";
      isGeneratingImage := false;
      isGeneratingDescription := false;
      seoSuggestions := [];
      isAnalyzingSeo := false;
      translatedContent := "";
      isTranslating := false;
    }

    /** `handleNewProject`: a fresh article in the editor. The loading flags,
        the trends result, the save status and the settings are kept. */
    method NewProject()
      modifies this`editorTitle, this`editorContent, this`articleGoal, this`client, this`destination
      modifies this`chatMessages, this`currentView
      modifies this`grammarSuggestions, this`seoSuggestions, this`imageUrl, this`imagePrompt, this`imageDescription
      modifies this`translatedContent, this`activeLeftTool
      ensures Valid()
      ensures editorTitle == "New Untitled Article" && editorContent == "Start writing..."
      ensures articleGoal == "" && client == "" && destination == ArticleBlog
      ensures chatMessages == [NewProjectStarted] && currentView == EditorView
      ensures grammarSuggestions == [] && seoSuggestions == []
      ensures imageUrl == "" && imagePrompt == "" && imageDescription == "" && translatedContent == ""
      ensures activeLeftTool == "Generate"
    {
      ResetArticle();
      ResetTools();
    }

    /** The article half of `handleNewProject`. */
    method ResetArticle()
      modifies this`editorTitle, this`editorContent, this`articleGoal, this`client, this`destination
      modifies this`chatMessages, this`currentView
      ensures editorTitle == "New Untitled Article" && editorContent == "Start writing..."
      ensures articleGoal == "" && client == "" && destination == ArticleBlog
      ensures chatMessages == [NewProjectStarted] && currentView == EditorView
    {
      editorTitle := "New Untitled Article";
      editorContent := "Start writing...";
      articleGoal := "";
      client := "";
      destination := ArticleBlog;
      chatMessages := [NewProjectStarted];
      currentView := EditorView;
    }

    /** The tools half of `handleNewProject`: their results go, the generator tool opens. */
    method ResetTools()
      modifies this`grammarSuggestions, this`seoSuggestions, this`imageUrl, this`imagePrompt, this`imageDescription
      modifies this`translatedContent, this`activeLeftTool
      ensures grammarSuggestions == [] && seoSuggestions == []
      ensures imageUrl == "" && imagePrompt == "" && imageDescription == "" && translatedContent == ""
      ensures activeLeftTool == "Generate"
    {
      grammarSuggestions := [];
      seoSuggestions := [];
      imageUrl := "";
      imagePrompt := "";
      imageDescription := "";
      translatedContent := "";
      activeLeftTool := "Generate";
    }

    /** `handleSendMessage` up to the request: a blank prompt does nothing;
        otherwise the prompt is logged as the user's and the assistant is loading. */
    method BeginSendMessage(prompt: string) returns (request: Option<string>)
      requires Valid()
      modifies this`chatMessages, this`isAssistantLoading
      ensures Valid()
      ensures IsBlank(prompt) ==> request.None? && chatMessages == old(chatMessages) && isAssistantLoading == old(isAssistantLoading)
      ensures !IsBlank(prompt) ==> request == Some(prompt) && chatMessages == old(chatMessages) + [ChatMessage(User, prompt)] && isAssistantLoading
    {
      if IsBlank(prompt) {
        request := None;
      } else {
        chatMessages := chatMessages + [ChatMessage(User, prompt)];
        isAssistantLoading := true;
        request := Some(prompt);
      }
    }

    /** `handleSummarizeSelection` up to the request: a blank selection does
        nothing; otherwise the request is logged as the user's and the
        assistant is loading. The returned prompt is the one sent. */
    method BeginSummarizeSelection(selectedText: string) returns (request: Option<string>)
      requires Valid()
      modifies this`chatMessages, this`isAssistantLoading
      ensures Valid()
      ensures IsBlank(selectedText) ==> request.None? && chatMessages == old(chatMessages) && isAssistantLoading == old(isAssistantLoading)
      ensures !IsBlank(selectedText) ==>
        && request == Some(SummarizePrompt(selectedText))
        && chatMessages == old(chatMessages) + [ChatMessage(User, SummarizeUserText(selectedText))]
        && isAssistantLoading
    {
      if IsBlank(selectedText) {
        request := None;
      } else {
        chatMessages := chatMessages + [ChatMessage(User, SummarizeUserText(selectedText))];
        isAssistantLoading := true;
        request := Some(SummarizePrompt(selectedText));
      }
    }

    /** The rest of `handleSendMessage` and of `handleSummarizeSelection`:
        one reply is appended and the assistant stops loading. */
    method FinishAssistantRequest(outcome: Settled<string>)
      requires Valid()
      modifies this`chatMessages, this`isAssistantLoading
      ensures Valid()
      ensures chatMessages == old(chatMessages) + [ChatReply(outcome)]
      ensures !isAssistantLoading
    {
      chatMessages := chatMessages + [ChatReply(outcome)];
      isAssistantLoading := false;
    }

    /** `handleInsertIntoEditor`: the text goes after the body, a blank line between. */
    method InsertIntoEditor(text: string)
      modifies this`editorContent
      ensures editorContent == InsertText(old(editorContent), text)
    {
      editorContent := editorContent + "\n\n" + text;
    }

    /** `handleGrammarCheck` up to the request: blank content does nothing;
        otherwise the grammar tool opens with an empty list and is loading. */
    method BeginGrammarCheck(content: string) returns (started: bool)
      modifies this`isGrammarLoading, this`activeLeftTool, this`grammarSuggestions
      ensures started == !IsBlank(content)
      ensures !started ==> isGrammarLoading == old(isGrammarLoading) && activeLeftTool == old(activeLeftTool) && grammarSuggestions == old(grammarSuggestions)
      ensures started ==> isGrammarLoading && activeLeftTool == "Grammar" && grammarSuggestions == []
    {
      started := !IsBlank(content);
      if started {
        isGrammarLoading := true;
        activeLeftTool := "Grammar";
        grammarSuggestions := [];
      }
    }

    /** The rest of `handleGrammarCheck`: the suggestions, or an error in the chat. */
    method FinishGrammarCheck(outcome: Settled<seq<GrammarSuggestion>>)
      requires Valid()
      modifies this`grammarSuggestions, this`chatMessages, this`isGrammarLoading
      ensures Valid()
      ensures outcome.Resolved? ==> grammarSuggestions == outcome.value && chatMessages == old(chatMessages)
      ensures outcome.Rejected? ==>
        grammarSuggestions == old(grammarSuggestions) && chatMessages == old(chatMessages) + [ErrorReport("Grammar Check Error: ", outcome.reason)]
      ensures !isGrammarLoading
    {
      match outcome {
        case Resolved(suggestions) => grammarSuggestions := suggestions;
        case Rejected(error) => chatMessages := chatMessages + [ErrorReport("Grammar Check Error: ", error)];
      }
      isGrammarLoading := false;
    }

    /** `handleApplySuggestion`: the first occurrence of the original text
        is replaced by the suggestion (with the language's `$` patterns),
        and every suggestion for that original text leaves the list. */
    method ApplySuggestion(suggestion: GrammarSuggestion)
      modifies this`editorContent, this`grammarSuggestions
      ensures editorContent == ReplaceFirst(old(editorContent), suggestion.original, suggestion.suggestion)
      ensures grammarSuggestions == WithoutOriginal(old(grammarSuggestions), suggestion.original)
      ensures forall i :: 0 <= i < |grammarSuggestions| ==> grammarSuggestions[i].original != suggestion.original
    {
      editorContent := ReplaceFirst(editorContent, suggestion.original, suggestion.suggestion);
      grammarSuggestions := WithoutOriginal(grammarSuggestions, suggestion.original);
    }

    /** `handleTextModification` up to the request: blank text does nothing. */
    method BeginTextModification(text: string) returns (started: bool)
      modifies this`isModifyingText
      ensures started == !IsBlank(text)
      ensures started ==> isModifyingText
      ensures !started ==> isModifyingText == old(isModifyingText)
    {
      started := !IsBlank(text);
      if started {
        isModifyingText := true;
      }
    }

    /** The rest of `handleTextModification`: the first occurrence of the
        captured text in the body as it now is gets the new text; a failure
        leaves the body alone and reports once in the chat. */
    method FinishTextModification(text: string, outcome: Settled<string>)
      requires Valid()
      modifies this`editorContent, this`chatMessages, this`isModifyingText
      ensures Valid()
      ensures outcome.Resolved? ==> editorContent == ReplaceFirst(old(editorContent), text, outcome.value) && chatMessages == old(chatMessages)
      ensures outcome.Rejected? ==>
        editorContent == old(editorContent) && chatMessages == old(chatMessages) + [ErrorReport("Error modifying text: ", outcome.reason)]
      ensures !isModifyingText
    {
      match outcome {
        case Resolved(newText) => editorContent := ReplaceFirst(editorContent, text, newText);
        case Rejected(error) => chatMessages := chatMessages + [ErrorReport("Error modifying text: ", error)];
      }
      isModifyingText := false;
    }

    /** `handleGenerateArticle` up to the request. */
    method BeginGenerateArticle()
      modifies this`isGeneratingArticle
      ensures isGeneratingArticle
    {
      isGeneratingArticle := true;
    }

    /** The rest of `handleGenerateArticle`: the article's title and body
        replace the editor's, and the brief's goal becomes the article goal. */
    method FinishGenerateArticle(params: ArticleGenerationParams, outcome: Settled<GeneratedArticle>)
      requires Valid()
      modifies this`editorTitle, this`editorContent, this`articleGoal, this`chatMessages, this`isGeneratingArticle
      ensures Valid()
      ensures outcome.Resolved? ==>
        && editorTitle == outcome.value.title && editorContent == outcome.value.content
        && articleGoal == params.goal && chatMessages == old(chatMessages)
      ensures outcome.Rejected? ==>
        && editorTitle == old(editorTitle) && editorContent == old(editorContent) && articleGoal == old(articleGoal)
        && chatMessages == old(chatMessages) + [ErrorReport("Error generating article: ", outcome.reason)]
      ensures !isGeneratingArticle
    {
      match outcome {
        case Resolved(article) =>
          editorTitle := article.title;
          editorContent := article.content;
          articleGoal := params.goal;
        case Rejected(error) =>
          chatMessages := chatMessages + [ErrorReport("Error generating article: ", error)];
      }
      isGeneratingArticle := false;
    }

    /** `handleGenerateSeoTitle` up to the request: with no goal (the test is
        not trimmed) and blank content it only asks for input in the chat. */
    method BeginGenerateSeoTitle() returns (started: bool)
      requires Valid()
      modifies this`chatMessages, this`isGeneratingTitle
      ensures Valid()
      ensures started <==> articleGoal != [] || !IsBlank(editorContent)
      ensures !started ==> chatMessages == old(chatMessages) + [TitleNeedsInput] && isGeneratingTitle == old(isGeneratingTitle)
      ensures started ==> chatMessages == old(chatMessages) && isGeneratingTitle
    {
      started := articleGoal != [] || !IsBlank(editorContent);
      if started {
        isGeneratingTitle := true;
      } else {
        chatMessages := chatMessages + [TitleNeedsInput];
      }
    }

    /** The rest of `handleGenerateSeoTitle`. */
    method FinishGenerateSeoTitle(outcome: Settled<string>)
      requires Valid()
      modifies this`editorTitle, this`chatMessages, this`isGeneratingTitle
      ensures Valid()
      ensures outcome.Resolved? ==> editorTitle == outcome.value && chatMessages == old(chatMessages)
      ensures outcome.Rejected? ==>
        editorTitle == old(editorTitle) && chatMessages == old(chatMessages) + [ErrorReport("Error generating SEO title: ", outcome.reason)]
      ensures !isGeneratingTitle
    {
      match outcome {
        case Resolved(title) => editorTitle := title;
        case Rejected(error) => chatMessages := chatMessages + [ErrorReport("Error generating SEO title: ", error)];
      }
      isGeneratingTitle := false;
    }

    /** `handleFetchTrends` up to the request: a blank query does nothing;
        otherwise the old result is cleared. */
    method BeginFetchTrends(query: string) returns (started: bool)
      modifies this`isFetchingTrends, this`trendsResult
      ensures started == !IsBlank(query)
      ensures !started ==> isFetchingTrends == old(isFetchingTrends) && trendsResult == old(trendsResult)
      ensures started ==> isFetchingTrends && trendsResult == ""
    {
      started := !IsBlank(query);
      if started {
        isFetchingTrends := true;
        trendsResult := "";
      }
    }

    /** The rest of `handleFetchTrends`: the result or the error goes into
        the trends panel, not the chat. */
    method FinishFetchTrends(outcome: Settled<string>)
      modifies this`trendsResult, this`isFetchingTrends
      ensures outcome.Resolved? ==> trendsResult == outcome.value
      ensures outcome.Rejected? ==> trendsResult == "Error fetching trends: " + ErrorMessage(outcome.reason)
      ensures !isFetchingTrends
    {
      match outcome {
        case Resolved(result) => trendsResult := result;
        case Rejected(error) => trendsResult := "Error fetching trends: " + ErrorMessage(error);
      }
      isFetchingTrends := false;
    }

    /** `handleGenerateImage` up to its first request: the old image and
        description are cleared and the body's first 100 words are summarized. */
    method BeginGenerateImage() returns (promptSource: string)
      modifies this`isGeneratingImage, this`imageUrl, this`imageDescription
      ensures isGeneratingImage && imageUrl == "" && imageDescription == ""
      ensures promptSource == ImagePromptSource(editorContent)
    {
      isGeneratingImage := true;
      imageUrl := "";
      imageDescription := "";
      promptSource := ImagePromptSource(editorContent);
    }

    /** `handleGenerateImage` between its two requests: the image prompt is
        kept and sent on; a failure ends the handler with an error in the chat. */
    method ImagePromptReady(outcome: Settled<string>) returns (imageRequest: Option<string>)
      requires Valid()
      modifies this`imagePrompt, this`chatMessages, this`isGeneratingImage
      ensures Valid()
      ensures outcome.Resolved? ==>
        && imagePrompt == outcome.value && imageRequest == Some(outcome.value)
        && chatMessages == old(chatMessages) && isGeneratingImage == old(isGeneratingImage)
      ensures outcome.Rejected? ==>
        && imagePrompt == old(imagePrompt) && imageRequest.None? && !isGeneratingImage
        && chatMessages == old(chatMessages) + [ErrorReport("Error generating image: ", outcome.reason)]
    {
      match outcome
      case Resolved(prompt) =>
        imagePrompt := prompt;
        imageRequest := Some(prompt);
      case Rejected(error) =>
        chatMessages := chatMessages + [ErrorReport("Error generating image: ", error)];
        isGeneratingImage := false;
        imageRequest := None;
    }

    /** The rest of `handleGenerateImage`: the image as a JPEG data URL. */
    method FinishGenerateImage(outcome: Settled<string>)
      requires Valid()
      modifies this`imageUrl, this`chatMessages, this`isGeneratingImage
      ensures Valid()
      ensures outcome.Resolved? ==> imageUrl == ImageDataPrefix + outcome.value && chatMessages == old(chatMessages)
      ensures outcome.Rejected? ==>
        imageUrl == old(imageUrl) && chatMessages == old(chatMessages) + [ErrorReport("Error generating image: ", outcome.reason)]
      ensures !isGeneratingImage
    {
      match outcome {
        case Resolved(base64Image) => imageUrl := ImageDataPrefix + base64Image;
        case Rejected(error) => chatMessages := chatMessages + [ErrorReport("Error generating image: ", error)];
      }
      isGeneratingImage := false;
    }

    /** `handleGenerateImageDescription` up to the request: without an image
        prompt (an uploaded image has none) it does nothing. */
    method BeginGenerateImageDescription() returns (started: bool)
      modifies this`isGeneratingDescription, this`imageDescription
      ensures started == (imagePrompt != [])
      ensures !started ==> isGeneratingDescription == old(isGeneratingDescription) && imageDescription == old(imageDescription)
      ensures started ==> isGeneratingDescription && imageDescription == ""
    {
      started := imagePrompt != [];
      if started {
        isGeneratingDescription := true;
        imageDescription := "";
      }
    }

    /** The rest of `handleGenerateImageDescription`. */
    method FinishGenerateImageDescription(outcome: Settled<string>)
      requires Valid()
      modifies this`imageDescription, this`chatMessages, this`isGeneratingDescription
      ensures Valid()
      ensures outcome.Resolved? ==> imageDescription == outcome.value && chatMessages == old(chatMessages)
      ensures outcome.Rejected? ==>
        && imageDescription == old(imageDescription)
        && chatMessages == old(chatMessages) + [ErrorReport("Error generating image description: ", outcome.reason)]
      ensures !isGeneratingDescription
    {
      match outcome {
        case Resolved(description) => imageDescription := description;
        case Rejected(error) => chatMessages := chatMessages + [ErrorReport("Error generating image description: ", error)];
      }
      isGeneratingDescription := false;
    }

    /** `handleSeoAnalysis` up to the request: the SEO tool opens with an empty list. */
    method BeginSeoAnalysis()
      modifies this`isAnalyzingSeo, this`seoSuggestions, this`activeLeftTool
      ensures isAnalyzingSeo && seoSuggestions == [] && activeLeftTool == "SEO"
    {
      isAnalyzingSeo := true;
      seoSuggestions := [];
      activeLeftTool := "SEO";
    }

    /** The rest of `handleSeoAnalysis`. */
    method FinishSeoAnalysis(outcome: Settled<seq<SeoSuggestion>>)
      requires Valid()
      modifies this`seoSuggestions, this`chatMessages, this`isAnalyzingSeo
      ensures Valid()
      ensures outcome.Resolved? ==> seoSuggestions == outcome.value && chatMessages == old(chatMessages)
      ensures outcome.Rejected? ==>
        seoSuggestions == old(seoSuggestions) && chatMessages == old(chatMessages) + [ErrorReport("Error analyzing SEO: ", outcome.reason)]
      ensures !isAnalyzingSeo
    {
      match outcome {
        case Resolved(suggestions) => seoSuggestions := suggestions;
        case Rejected(error) => chatMessages := chatMessages + [ErrorReport("Error analyzing SEO: ", error)];
      }
      isAnalyzingSeo := false;
    }

    /** `handleSave`: the article is logged (not modelled) and the status reports success. */
    method Save()
      modifies this`saveStatus
      ensures saveStatus == ArticleSaved
    {
      saveStatus := ArticleSaved;
    }

    /** `handleTranslate` up to the request: blank content does nothing;
        otherwise the old translation is cleared. */
    method BeginTranslate(language: Language) returns (started: bool)
      modifies this`isTranslating, this`translatedContent
      ensures started == !IsBlank(editorContent)
      ensures !started ==> isTranslating == old(isTranslating) && translatedContent == old(translatedContent)
      ensures started ==> isTranslating && translatedContent == ""
    {
      started := !IsBlank(editorContent);
      if started {
        isTranslating := true;
        translatedContent := "";
      }
    }

    /** The rest of `handleTranslate`: the translation or the error goes into
        the translation panel, not the chat. */
    method FinishTranslate(outcome: Settled<string>)
      modifies this`translatedContent, this`isTranslating
      ensures outcome.Resolved? ==> translatedContent == outcome.value
      ensures outcome.Rejected? ==> translatedContent == "Error translating text: " + ErrorMessage(outcome.reason)
      ensures !isTranslating
    {
      match outcome {
        case Resolved(result) => translatedContent := result;
        case Rejected(error) => translatedContent := "Error translating text: " + ErrorMessage(error);
      }
      isTranslating := false;
    }

    /** `handleReplaceWithTranslation`: a non-empty translation becomes the
        body and is cleared; an empty one changes nothing. */
    method ReplaceWithTranslation()
      modifies this`editorContent, this`translatedContent
      ensures old(translatedContent) != [] ==> editorContent == old(translatedContent) && translatedContent == []
      ensures old(translatedContent) == [] ==> editorContent == old(editorContent) && translatedContent == []
    {
      if translatedContent != [] {
        editorContent := translatedContent;
        translatedContent := "";
      }
    }

    /** The settings page's `onSave`: the saved draft becomes the settings. */
    method SaveSettings(settings: AppSettings)
      modifies this`appSettings
      ensures appSettings == settings
    {
      appSettings := settings;
    }

    /** The editor's toolbar formatting, handed back through `onContentChange`. */
    method FormatSelection(start: nat, end: nat, format: Formatting.Format)
      requires start <= end <= |editorContent|
      modifies this`editorContent
      ensures editorContent == Formatting.ApplyFormatting(old(editorContent), start, end, format)
    {
      editorContent := Formatting.ApplyFormatting(editorContent, start, end, format);
    }
  }
}
