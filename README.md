# FaceWriter 2 workspace, modelled in Dafny

FaceWriter 2 is a browser writing workspace. An author edits a Markdown article and asks an AI gateway (Google Gemini) for help:
- chat and summaries;
- grammar suggestions;
- expand, shorten and rewrite of a selection;
- whole articles generated from a brief;
- SEO titles and an SEO analysis;
- search trends;
- an illustrative image and stock-photo keywords;
- translations.

This project models the core of that application in Dafny and proves properties of the model:

- **`Types`** (`types.dfy`): the records and enumerations of `types.ts`. It also has `Settled<T>`, the outcome of a promise that resolves to a value or rejects with a thrown value (an `Error` with a message, or anything else).
- **`Text`** (`text.dfy`): the JavaScript string operations the code uses, with the language's edge cases:
  - `trim` over the language's whitespace set, `substring` (clamping and swapped bounds), `indexOf`, and `lastIndexOf` with its position clamping;
  - `split` and `join` on one separator;
  - `replace` with a string pattern, which changes only the first occurrence and expands `$$`, `$&`, `` $` `` and `$'` in the replacement.
- **`Lists`** (`lists.dfy`): `Array.prototype.filter` and its algebra.
- **`Formatting`** (`formatting.dfy`): the editor's toolbar formatting (`applyFormatting`), as a pure function of body, selection and format. Heading edits are modelled twice: exactly as written, and corrected (see "Findings").
- **`Editor`** (`editor.dfy`): the editor's selection state, a class holding the floating toolbar. Also the summarize button's test.
- **`GeminiService`** (`gemini_service.dfy`): what every gateway call does with the response it gets back. The SDK's answer (or failure) and `JSON.parse` are parameters. The model covers:
  - trimming of the answer;
  - stripping of title quotes;
  - the empty-list rule for blank JSON answers;
  - the `Failed to ... Details: ...` error wrapping;
  - `runGemini`, which never rejects;
  - the prompt templates of `modifyText` and `generateSeoTitle`.
- **`Settings`** (`settings.dfy`): the settings page, a class holding the draft `AppSettings` and the save status.
- **`App`** (`app.dfy`): the workspace's state as a class whose fields are the `useState` hooks of `App.tsx`.
  - Each asynchronous handler is split at its `await`s into a `Begin…` method and a `Finish…` method. `Begin…` runs the input guard, sets the loading flag and clears the old result. `Finish…` takes the gateway's settled outcome and runs the `try`/`catch`/`finally` tail.
  - `Valid()` states that the chat log is never empty and opens with a system message. Every chat change appends one message, except a new project, which resets the log.

Where the code and the written description of the system differ, the model follows the code. A grammar suggestion, once applied, removes every suggestion for the same original text, not only the one applied (`App.tsx:155`).

## Model

| member | source | states |
|---|---|---|
| Text.Trim | App.tsx:98 | `String.prototype.trim`: the result has no whitespace at either end and is no longer than the input; `TrimStart`/`TrimEnd` state that exactly a whitespace prefix or suffix is removed |
| Text.TrimStart | App.tsx:98 | the leading whitespace is removed: the result is a suffix, every removed character is whitespace, and the result does not start with whitespace |
| Text.TrimEnd | App.tsx:98 | the trailing whitespace is removed: the result is a prefix, every removed character is whitespace, and the result does not end with whitespace |
| Text.BlankIffAllSpace | App.tsx:98 | the blank-input guard `!s.trim()` holds exactly when every character is whitespace |
| Text.TrimUnpadded | services/geminiService.ts:220 | trimming a string without surrounding whitespace leaves it unchanged |
| Text.Substring | components/Editor.tsx:46 | `substring(a, b)` clamps both bounds into `[0, length]` and swaps them when they are reversed |
| Text.IndexOf | App.tsx:154 | `indexOf` is -1 exactly when the pattern does not occur; otherwise the pattern matches there and at no earlier position |
| Text.IndexOfIsFirstMatch | App.tsx:154 | a position where the pattern matches, with no match before it, is what `indexOf` returns |
| Text.IndexOfFrom | components/Editor.tsx:66 | `indexOf(pat, from)` searches from the clamped `from`: -1 means no match at or after it; otherwise a match with none between `from` and it |
| Text.LastIndexOfChar | components/Editor.tsx:61 | `lastIndexOf(c, from)` clamps `from` into the string and returns the last `c` at or before it, or -1 |
| Text.Split | App.tsx:231 | `split` on one character yields at least one piece, none of which contains the separator |
| Text.Join | components/Editor.tsx:55 | `join` starts with the first piece, followed by the separator when there is a second piece |
| Text.JoinSplit | App.tsx:231 | joining a split with the same separator gives back the string |
| Text.SplitJoin | components/Editor.tsx:54-55 | splitting a join of separator-free pieces gives back the pieces |
| Text.SplitCount | App.tsx:231 | a string with n separators splits into n + 1 pieces |
| Text.JoinCount | components/Editor.tsx:55 | joining n separator-free pieces puts exactly n - 1 separators in |
| Text.JoinSplitPrefix | App.tsx:231 | rejoining the first k pieces of a split gives a prefix of the string |
| Text.JoinPrefix | App.tsx:231 | joining the first k pieces gives a prefix of joining all of them |
| Text.ReplaceFirst | App.tsx:154 | `replace` with a string pattern leaves the string unchanged when the pattern does not occur |
| Text.Substitution | App.tsx:154 | the replacement pattern of `replace` (`$$`, `$&`, `` $` ``, `$'` expanded); a replacement without `$` is inserted as it is |
| Text.ReplaceFirstAt | App.tsx:154 | when the first match is at p and the replacement has no `$`, the result is the text before p, the replacement, then the text after the match |
| Text.ReplaceEmptyPattern | App.tsx:154 | an empty pattern matches at 0, so a `$`-free replacement is put in front |
| Text.ReplaceWithMatchIsIdentity | App.tsx:154 | a replacement of `$&` reinserts the match, so the string is unchanged |
| Lists.Filter | App.tsx:155 | `filter` keeps exactly the elements satisfying the test: every kept element is from the input and passes, and every input element that passes is kept |
| Lists.FilterAppend | App.tsx:155 | filtering a concatenation filters each part, in order |
| Lists.FilterKeepsAll | components/Settings.tsx:23 | a filter every element passes changes nothing |
| Lists.FilterDropsAll | components/Settings.tsx:23 | a filter no element passes gives the empty list |
| Lists.FilterUnique | components/Settings.tsx:23 | filtering a list without duplicates keeps it without duplicates |
| Formatting.Format.Level | components/Editor.tsx:58 | `parseInt` of the digit after `h`: h1, h2 and h3 give levels 1, 2 and 3 |
| Formatting.HeadingPrefix | components/Editor.tsx:59 | `'#'.repeat(level) + ' '`: level hashes then a space, no newline |
| Formatting.HeadingLine | components/Editor.tsx:70-73 | one touched line becomes the heading prefix followed by the line without its old marker |
| Formatting.ListLine | components/Editor.tsx:55 | one selected line: a blank line becomes empty, any other line becomes `- ` followed by the line |
| Formatting.StripHeadingMarker | components/Editor.tsx:71 | removing `^\s*#+\s*` leaves a suffix of the line; a line whose first non-whitespace character is not `#` is unchanged; on a marked line only whitespace and `#` are removed, at least one character, and what is left does not start with whitespace |
| Formatting.StripHeadingPrefix | components/Editor.tsx:71 | the marker of a heading line is removed completely |
| Formatting.StripHandTypedMarker | components/Editor.tsx:71 | the whole marker of any marked line is removed: leading whitespace, one or more `#` and the whitespace after them go, and exactly the text behind them is left (so "##Title", "#   Title" and "  # Title" all give "Title") |
| Formatting.HeadingReplacesLevel | components/Editor.tsx:70-73 | re-heading a heading line replaces its level instead of stacking hashes |
| Formatting.HeadingReapplied | components/Editor.tsx:70-73 | applying a heading to an already headed line equals applying it to the plain line |
| Formatting.Wrap | components/Editor.tsx:50 | the selection is surrounded by the marker and the text outside is unchanged |
| Formatting.BoldWrapsSelection | components/Editor.tsx:49-50 | bold puts `**` on both sides of the selection; removing the markers gives back the body |
| Formatting.ItalicWrapsSelection | components/Editor.tsx:51-52 | italic puts `*` on both sides of the selection; removing the markers gives back the body |
| Formatting.ListBlock | components/Editor.tsx:54-55 | the list block of the selection has as many line breaks as the selection |
| Formatting.ListEdit | components/Editor.tsx:53-56 | the selection is replaced by its list block and the text outside it is kept |
| Formatting.ListBlockLines | components/Editor.tsx:53-56 | a list edit keeps the number of lines; each non-blank line gets `- ` and each blank line becomes empty |
| Formatting.ListKeepsOutside | components/Editor.tsx:56 | a list edit changes only the selection |
| Formatting.HeadingBlock | components/Editor.tsx:69-73 | the heading block has as many line breaks as the touched text and starts with the heading prefix |
| Formatting.HeadingBlockLines | components/Editor.tsx:69-73 | a heading edit keeps the number of lines and starts every one of them with the prefix |
| Formatting.HeadingRange | components/Editor.tsx:61-67 | the corrected range lies in the body and starts at or before `start`; when a non-empty selection ends with a newline it stops at that newline (`end - 1`), and otherwise it reaches at least to `end` |
| Formatting.HeadingRangeLines | components/Editor.tsx:61-67 | the corrected range starts at a line start and ends at a line end; it ends before a final selected newline and otherwise covers every line the selection touches |
| Formatting.HeadingRangeAsWritten | components/Editor.tsx:61-67 | the range as the editor computes it: both bounds lie in the body, the first just after a newline or at 0, the second at a newline or at the end, and the first is at or before `start` when `start > 0` |
| Formatting.HeadingEdit | components/Editor.tsx:75 | the three `substring` calls: with ordered bounds the touched slice is replaced by its heading block; with reversed bounds the block is built from the slice between them while both outer pieces are kept |
| Formatting.ApplyHeadingAsWritten | components/Editor.tsx:57-75 | the heading edit as written: the block of the as-written range goes between the text before its start and the text from its end on (swapped when the range is reversed) |
| Formatting.ApplyFormatting | components/Editor.tsx:40-82 | `applyFormatting`: bold, italic and list keep the text outside the selection; a heading keeps the text outside the as-written range |
| Formatting.ApplyFormattingCorrected | components/Editor.tsx:57-75 | the corrected edit: the same as `applyFormatting` for bold, italic and list; for a heading, the corrected range's lines are replaced by their heading block and nothing else changes |
| Formatting.HeadingKeepsOutside | components/Editor.tsx:75 | the corrected heading edit keeps the text before and after the touched lines and puts their heading block between |
| Formatting.LeadingNewlineSkipped | components/Editor.tsx:61-75 | with the whole of a body that opens with an empty line selected, the edit as written leaves that line unheaded, and the corrected edit heads both lines |
| Formatting.HeadingAsWrittenAgrees | components/Editor.tsx:57-75 | the editor's own computation and the corrected one give the same result outside the two cases listed under Findings |
| Formatting.BackwardsRange | components/Editor.tsx:61-67 | as written, an empty selection just after a newline yields a range that ends before it starts |
| Formatting.HeadingAsWrittenDuplicatesNewline | components/Editor.tsx:61-75 | as written, that range makes the heading edit insert a second newline with a prefix on each side of it |
| Formatting.HeadingBlockOfNewline | components/Editor.tsx:69-73 | heading the one-newline text gives two prefixed empty lines |
| Formatting.CaretAtLineStart | components/Editor.tsx:57-75 | with the caret at the start of a non-first line, the edit as written doubles the newline, and the corrected edit heads that line |
| Editor.ToolbarFor | components/Editor.tsx:96-107 | the toolbar is shown exactly when the selection holds a non-whitespace character; it sits 15px below the pointer and holds the whole selection |
| Editor.SummarizeRequest | components/Editor.tsx:84-94 | the selection is forwarded exactly when it is non-empty; it is not trimmed |
| Editor.BlankSelectionSummarizedWithoutToolbar | components/Editor.tsx:88 | a whitespace-only selection can be summarized but shows no toolbar |
| Editor.EditorView.constructor | components/Editor.tsx:38 | the toolbar starts hidden |
| Editor.EditorView.MouseUp | components/Editor.tsx:96-107 | the new toolbar is the one `ToolbarFor` gives for the selection and pointer |
| Editor.EditorView.MouseDown | components/Editor.tsx:195 | a mouse-down hides the toolbar |
| Editor.EditorView.TextModification | components/Editor.tsx:109-114 | with a toolbar, its captured text is forwarded with the action and the toolbar is hidden; without one nothing is forwarded |
| GeminiService.FailureMessage | services/geminiService.ts:86 | `Failed to <task>. Details: <message>`: the prefix, the task, `. Details: ` and the message, each at its offset |
| GeminiService.Failure | services/geminiService.ts:86 | the error a service function throws is always an `Error`; it wraps an `Error` cause's message and uses the fallback text for any other cause |
| GeminiService.Caught | services/geminiService.ts:84-87 | a resolved call passes through its value; a rejected one is rethrown as that wrapped `Error` |
| GeminiService.RunGemini | services/geminiService.ts:53-68 | `runGemini` never rejects; a failure resolves with its failure report as the answer |
| GeminiService.ParseListResponse | services/geminiService.ts:82-87 | a blank JSON answer gives the empty list without parsing; otherwise the trimmed answer is parsed; every failure is reported wrapped |
| GeminiService.CheckGrammar | services/geminiService.ts:71-88 | a blank answer gives no suggestions; a failure is reported as `Failed to check grammar. Details: …` or the fallback |
| GeminiService.AnalyzeSeo | services/geminiService.ts:193-210 | a blank answer gives no suggestions; a failure is reported as `Failed to analyze SEO. Details: …` or the fallback |
| GeminiService.BlankResponseIsNotParsed | services/geminiService.ts:83 | for a blank answer the parser is never consulted: any two parsers give the same empty list |
| GeminiService.ActionName | services/geminiService.ts:105-106 | the action's wire name, used in the failure messages: expand, shorten and rewrite give "expand", "shorten" and "rewrite" |
| GeminiService.Instruction | services/geminiService.ts:92-96 | each action selects its own template: the expand, shorten or rewrite instruction, opening with the action's verb and closing with the request for only the resulting text |
| GeminiService.ModifyPrompt | services/geminiService.ts:92-96 | the prompt is the instruction, a blank line, an opening quote, the text and a closing quote, each at its offset |
| GeminiService.ModifyPromptInjective | services/geminiService.ts:92-96 | different texts or actions never produce the same prompt |
| GeminiService.ModifyText | services/geminiService.ts:90-108 | the answer is returned untouched; a failure names the action: `Failed to <action> text. Details: …` |
| GeminiService.GenerateArticle | services/geminiService.ts:110-128 | a parsed trimmed answer is returned; a failed request and a parse that throws are each reported as `Failed to generate article. Details: …` for an `Error` cause, or the fallback otherwise |
| GeminiService.ContentSnippet | services/geminiService.ts:131 | `substring(0, 500)`: the first min(length, 500) characters of the body |
| GeminiService.TitlePrompt | services/geminiService.ts:131 | the title prompt is the instruction, the labelled goal and the labelled 500-character snippet followed by `...`, each at its offset |
| GeminiService.TitlePromptIgnoresTail | services/geminiService.ts:131 | text past the 500th character of the body does not change the title prompt |
| GeminiService.StripWrappingQuotes | services/geminiService.ts:138 | the global replace of a leading or a trailing double quote removes one quote at the start and one at the end, each on its own; a string that is only a quote becomes empty |
| GeminiService.StripQuotedTitle | services/geminiService.ts:138 | a quoted title is unquoted exactly once |
| GeminiService.GenerateSeoTitle | services/geminiService.ts:130-143 | the answer is trimmed and then unquoted; failures are reported wrapped |
| GeminiService.SeoTitleUnwrapped | services/geminiService.ts:138 | a quoted title padded with whitespace comes out bare |
| Text.TrimAround | services/geminiService.ts:138 | trimming removes exactly the surrounding whitespace of a word |
| GeminiService.FetchTrends | services/geminiService.ts:145-158 | the answer is returned untouched; failures are reported wrapped |
| GeminiService.SummarizeForImagePrompt | services/geminiService.ts:160-173 | the answer is returned untouched; any failure becomes `Failed to create image prompt.` |
| GeminiService.GenerateImage | services/geminiService.ts:175-191 | the image bytes are returned untouched; failures are reported wrapped |
| GeminiService.GenerateImageDescription | services/geminiService.ts:212-225 | the trimmed answer, with no whitespace at either end; any failure becomes `Failed to generate image description.` |
| GeminiService.TranslateText | services/geminiService.ts:227-239 | the trimmed answer, with no whitespace at either end; failures are reported wrapped |
| GeminiService.FailuresAreReported | services/geminiService.ts:90-239 | every string-valued call reports an `Error` cause with a message starting `Failed to ` |
| Settings.ToggleProvider | components/Settings.tsx:20-26 | an absent provider is appended at the end; a present one is removed, every copy of it, and nothing else changes |
| Settings.ToggleRemovesOnlyIt | components/Settings.tsx:22-23 | removing a provider found once leaves the others in their order |
| Settings.ToggleTwiceRestores | components/Settings.tsx:20-26 | ticking a provider on and off again restores the list |
| Settings.ToggleTwiceMoves | components/Settings.tsx:20-26 | unticking and re-ticking a listed provider keeps the same providers (it moves to the end) |
| Settings.ToggleKeepsUnique | components/Settings.tsx:20-26 | toggling keeps a duplicate-free provider list duplicate-free |
| Settings.SettingsPanel.constructor | components/Settings.tsx:11-12 | the draft starts as the settings passed in, with no status |
| Settings.SettingsPanel.ToggleImageProvider | components/Settings.tsx:25 | only the draft's provider list changes, to its toggle |
| Settings.SettingsPanel.SetLlmProvider | components/Settings.tsx:51 | only the draft's LLM provider changes |
| Settings.SettingsPanel.SetGeminiApiKey | components/Settings.tsx:57 | only the draft's Gemini key changes |
| Settings.SettingsPanel.SetUnsplashApiKey | components/Settings.tsx:76 | only the draft's Unsplash key changes |
| Settings.SettingsPanel.Save | components/Settings.tsx:14-18 | the draft is handed over unchanged and the status reports success |
| App.ChatReply | App.tsx:103-107 | a resolved request becomes a model message with the answer; a rejected one becomes a system message starting `Error: ` |
| App.AssistantRepliesAsModel | App.tsx:102-108 | since `runGemini` never rejects, the chat handlers always end with a model message |
| App.ErrorMessage | App.tsx:105 | the message a `catch` reports: an `Error`'s own message, or "An unknown error occurred." for any other thrown value |
| App.ErrorReport | App.tsx:106 | the message a `catch` appends is a system message: its heading, then the error's message |
| App.SummarizeUserText | App.tsx:136 | the chat text of a summarize request: the lead-in with an opening quote, the selection, then a closing quote |
| App.SummarizePrompt | App.tsx:137 | the prompt of a summarize request: the lead-in, a blank line and an opening quote, the selection, then a closing quote |
| App.InsertText | App.tsx:114 | the old body is kept as a prefix, followed by a blank line and the text |
| App.ImagePromptSource | App.tsx:231 | the first 100 space-separated words: a prefix of the body with at most 99 spaces; the whole body when it has at most 99 spaces, and otherwise exactly 99 spaces, stopping just before the body's 100th space |
| App.FirstWords | App.tsx:231 | rejoining the first k space-separated words gives a prefix of the body with k - 1 spaces: the whole body when k is the number of words, otherwise a prefix followed in the body by a space |
| App.WithoutOriginal | App.tsx:155 | no remaining suggestion has the applied original text; every suggestion with another original text remains |
| App.WithoutOriginalPiecewise | App.tsx:155 | the remaining suggestions keep their order |
| App.ApplyRemovesOnlyIt | App.tsx:155 | when the applied suggestion is the only one for its original text, exactly it is removed |
| App.AppState.constructor | App.tsx:16-60 | the workspace's initial state: the settings, the sample article, the welcome message, and all flags off |
| App.AppState.NewProject | App.tsx:65-80 | a new project's state, with a one-message chat log; the loading flags, trends, status and settings are untouched |
| App.AppState.ResetArticle | App.tsx:66-71 | the article fields and the chat log of a new project |
| App.AppState.ResetTools | App.tsx:72-79 | the cleared tool results of a new project |
| App.AppState.BeginSendMessage | App.tsx:97-100 | a blank prompt changes nothing; otherwise the prompt is appended as the user's and the assistant is loading |
| App.AppState.BeginSummarizeSelection | App.tsx:134-140 | a blank selection changes nothing; otherwise the request is appended as the user's and the quoted prompt is sent |
| App.AppState.FinishAssistantRequest | App.tsx:101-110 | exactly one reply is appended and loading ends |
| App.AppState.InsertIntoEditor | App.tsx:113-115 | the body becomes the old body, a blank line and the text |
| App.AppState.BeginGrammarCheck | App.tsx:117-121 | blank content changes nothing; otherwise the grammar tool opens, loading, with no suggestions |
| App.AppState.FinishGrammarCheck | App.tsx:122-131 | the suggestions are stored, or one `Grammar Check Error: ` message is appended; loading ends |
| App.AppState.ApplySuggestion | App.tsx:153-156 | the first occurrence of the original text is replaced, and no suggestion for that original text remains |
| App.AppState.BeginTextModification | App.tsx:158-160 | blank text changes nothing; otherwise modification is in progress |
| App.AppState.FinishTextModification | App.tsx:161-170 | the first occurrence of the captured text in the current body gets the new text, or one `Error modifying text: ` message is appended |
| App.AppState.BeginGenerateArticle | App.tsx:174 | generation is in progress |
| App.AppState.FinishGenerateArticle | App.tsx:175-187 | the article's title and body and the brief's goal are taken over, or one error message is appended with the article untouched |
| App.AppState.BeginGenerateSeoTitle | App.tsx:190-196 | with no goal and blank content, only a request for input is appended; otherwise title generation starts |
| App.AppState.FinishGenerateSeoTitle | App.tsx:197-206 | the title is replaced, or one error message is appended |
| App.AppState.BeginFetchTrends | App.tsx:209-212 | a blank query changes nothing; otherwise the old result is cleared |
| App.AppState.FinishFetchTrends | App.tsx:213-222 | the result, or `Error fetching trends: ` and the message, goes into the trends panel; the chat is untouched |
| App.AppState.BeginGenerateImage | App.tsx:225-231 | the old image and description are cleared and the first 100 words are sent |
| App.AppState.ImagePromptReady | App.tsx:232-239 | the image prompt is stored and sent on; a failure appends one error message and ends generation |
| App.AppState.FinishGenerateImage | App.tsx:234-242 | the image becomes a JPEG data URL, or one error message is appended |
| App.AppState.BeginGenerateImageDescription | App.tsx:245-248 | without an image prompt nothing happens; otherwise the old description is cleared |
| App.AppState.FinishGenerateImageDescription | App.tsx:249-258 | the description is stored, or one error message is appended |
| App.AppState.BeginSeoAnalysis | App.tsx:275-278 | the SEO tool opens, loading, with no suggestions |
| App.AppState.FinishSeoAnalysis | App.tsx:279-288 | the suggestions are stored, or one error message is appended |
| App.AppState.Save | App.tsx:291-294 | the status reports the article saved |
| App.AppState.BeginTranslate | App.tsx:296-299 | blank content changes nothing; otherwise the old translation is cleared |
| App.AppState.FinishTranslate | App.tsx:301-310 | the translation, or `Error translating text: ` and the message, goes into the translation panel |
| App.AppState.ReplaceWithTranslation | App.tsx:313-318 | a non-empty translation becomes the body and is cleared; an empty one changes nothing |
| App.AppState.SaveSettings | App.tsx:329 | the saved draft becomes the workspace's settings |
| App.AppState.FormatSelection | App.tsx:335 | the body becomes `applyFormatting`'s result, heading edits included as the editor computes them |

## Left out

- The Gemini SDK and `JSON.parse` are not modelled. Each call's answer or failure is a `Settled` parameter and the parser is a function parameter. Whether a parsed value really has the fields of its type is not checked, as it is not checked at run time either.
- Prompt wording, except the `modifyText` and `generateSeoTitle` templates. The other prompts only reach the SDK, which is not modelled.
- Asynchronous interleaving. Each handler's `Begin…` and `Finish…` steps are separate methods. Handlers that overlap, and closures that read stale state, are not modelled.
- Timers: the save-status clearing after three seconds (`App.tsx:90-95`, `components/Settings.tsx:17`) and the textarea refocus (`components/Editor.tsx:81`).
- The dark/light theme effect, which touches the DOM.
- `handleImageUpload`: the `FileReader` is browser I/O.
- Logging in and out (`components/Login.tsx`, `isAuthenticated`). Rendering, the sidebars, the dashboard, and the stock-photo search URL.
- Direct setters passed to children unchanged: navigation and the title, goal, client, destination and body fields. Only `onSave` and the formatting path of `onContentChange` are modelled.
- Console output. The console log of the article in `handleSave`. The `alert` of an empty summarize selection.
- The early return when the textarea ref is null (`components/Editor.tsx:42`, `:86`).
- The module-level `API_KEY` check (`services/geminiService.ts:6-8`), which runs once at load time.
- Strings are sequences of Unicode scalar values. JavaScript indexes UTF-16 code units, so text outside the Basic Multilingual Plane counts differently.
- A missing image in the SDK's answer (`services/geminiService.ts:186`) is part of the failure outcome passed in.
- Formatting.StripHeadingMarker: its own contract does not fix the text left on a marked line. `Formatting.StripHandTypedMarker` states it for every marked line: exactly the text behind the marker remains.
- Text.ReplaceFirst: its own contract covers only the no-match case. The match case is stated by `Text.ReplaceFirstAt` for replacements without `$`, and by `Text.ReplaceWithMatchIsIdentity` for `$&`. Other `$` patterns are modelled but no lemma is stated about them.

## Findings

| source | as written | input that shows it | evidently intended | confidence | as-written member | corrected member |
|---|---|---|---|---|---|---|
| components/Editor.tsx:61-75 | A heading edit finds the touched lines from `lastIndexOf('\n', start - 1) + 1` and `indexOf('\n', end')`, where `end'` is the selection end stepped back over a final newline. With an empty selection just after a newline, the end is stepped back before the start, and `substring` swaps the bounds. The newline itself is then edited as two lines. | body `"a\nb"`, caret at 2 (start of `b`), H1: the result is `"a\n# \n# \nb"` | `"a\n# b"`, the caret's line becomes a heading | not executed | Formatting.HeadingAsWrittenDuplicatesNewline | Formatting.HeadingRangeLines |
| components/Editor.tsx:61 | `lastIndexOf('\n', -1)` clamps the position to 0. With a selection starting at 0 in a body that opens with a newline, it finds that newline, so the line start becomes 1 and the empty first line is left unheaded. | body `"\nx"`, selection [0, 2), H1: the result is `"\n# x"` | `"# \n# x"`, every line the selection touches is headed | not executed | Formatting.LeadingNewlineSkipped | Formatting.HeadingRangeLines |

The corrected heading edit (`Formatting.HeadingRange`, used by `Formatting.ApplyFormattingCorrected`) starts the line search before the selection only when the selection does not start at 0. It steps the end back only over a newline inside a non-empty selection. `Formatting.CaretAtLineStart` states both sides of the first row on a general input, and `Formatting.LeadingNewlineSkipped` does the same for the second. `Formatting.HeadingAsWrittenAgrees` shows that the two computations differ only in these two cases. The workspace (`App.AppState.FormatSelection`) uses `Formatting.ApplyFormatting`, the edit as the editor performs it.
