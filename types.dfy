/** The records and string unions of types.ts, plus the two shapes every
    asynchronous call in the workspace settles into. */
module Types {

  datatype Option<T> = None | Some(value: T)

  /** What a `catch` receives: an `Error` object (with its `message`) or any other thrown value. */
  datatype Thrown = ErrorObject(message: string) | OtherValue

  /** How an awaited promise settles. The generative-AI service itself is not
      modelled: its answer is always one of these, supplied from outside. */
  datatype Settled<T> = Resolved(value: T) | Rejected(reason: Thrown)

  datatype Role = User | Model | System

  datatype ChatMessage = ChatMessage(role: Role, text: string)

  datatype GrammarSuggestion = GrammarSuggestion(original: string, suggestion: string, explanation: string)

  datatype TextModificationAction = Expand | Shorten | Rewrite

  datatype ContentType = BlogPost | Tutorial | PressRelease | ProductDescription | Newsletter

  datatype NarrativeTune = Formal | Casual | Humorous | Professional | Inspirational | Technical | Empathetic

  datatype Language = English | Portuguese | Spanish

  datatype ArticleGenerationParams = ArticleGenerationParams(
    goal: string,
    audience: string,
    contentType: ContentType,
    narrativeTune: NarrativeTune,
    keywords: string,
    language: Language)

  datatype GeneratedArticle = GeneratedArticle(title: string, content: string)

  datatype Destination = ArticleBlog | YoutubeScript | InstagramPost | FacebookPost | XPost | LinkedinPost

  datatype Severity = High | Medium | Low

  datatype SeoSuggestion = SeoSuggestion(area: string, suggestion: string, severity: Severity)

  datatype ImageProvider = Unsplash | Pixabay | Pexels

  datatype LlmProvider = Gemini | OpenAI | Anthropic

  datatype AppSettings = AppSettings(
    llmProvider: LlmProvider,
    geminiApiKey: string,
    unsplashApiKey: string,
    imageProviders: seq<ImageProvider>)
}
