/** The settings page: a draft copy of the workspace settings that the page
    edits field by field, and hands over unchanged when it is saved. The
    image-provider checkboxes toggle membership of a provider in the
    draft's provider list. */
module Settings {
  import opened Types
  import opened Lists

  /** Keeps every provider except `provider`. */
  function Other(provider: ImageProvider): ImageProvider -> bool {
    p => p != provider
  }

  /** Toggling a provider in the settings draft: an absent provider is
      appended; a present one is filtered out, every copy of it. */
  function ToggleProvider(providers: seq<ImageProvider>, provider: ImageProvider): (r: seq<ImageProvider>)
    ensures provider !in providers ==> r == providers + [provider]
    ensures provider in providers ==> provider !in r && multiset(r) == multiset(providers)[provider := 0]
  {
    if provider in providers then
      RemovedCount(providers, provider);
      Filter(providers, Other(provider))
    else providers + [provider]
  }

  /** Removing a provider by filtering takes away exactly its copies. */
  lemma {:induction false} RemovedCount(providers: seq<ImageProvider>, provider: ImageProvider)
    ensures multiset(Filter(providers, Other(provider))) == multiset(providers)[provider := 0]
  {
    if providers != [] {
      var head, tail := providers[0], providers[1..];
      assert providers == [head] + tail;
      RemovedCount(tail, provider);
      assert multiset(providers) == multiset{head} + multiset(tail);
    }
  }

  /** Removing a present provider keeps the others in their order. */
  lemma ToggleRemovesOnlyIt(before: seq<ImageProvider>, provider: ImageProvider, after: seq<ImageProvider>)
    requires provider !in before && provider !in after
    ensures ToggleProvider(before + [provider] + after, provider) == before + after
  {
    var keep := Other(provider);
    var s := before + [provider] + after;
    assert s[|before|] == provider;
    assert ToggleProvider(s, provider) == Filter(s, keep);
    FilterAppend(before + [provider], after, keep);
    FilterAppend(before, [provider], keep);
    assert forall i :: 0 <= i < |before| ==> keep(before[i]);
    assert forall i :: 0 <= i < |after| ==> keep(after[i]);
    FilterKeepsAll(before, keep);
    FilterKeepsAll(after, keep);
    assert Filter([provider], keep) == [] + Filter([provider][1..], keep);
    assert before + [] == before;
  }

  /** Checking an unchecked provider and unchecking it again restores the list. */
  lemma ToggleTwiceRestores(providers: seq<ImageProvider>, provider: ImageProvider)
    requires provider !in providers
    ensures ToggleProvider(ToggleProvider(providers, provider), provider) == providers
  {
    ToggleRemovesOnlyIt(providers, provider, []);
    assert providers + [provider] + [] == providers + [provider];
    assert providers + [] == providers;
  }

  /** Unchecking a checked provider and checking it again moves it to the
      end: the same providers, each as often as before. */
  lemma ToggleTwiceMoves(providers: seq<ImageProvider>, provider: ImageProvider)
    requires provider in providers && Unique(providers)
    ensures multiset(ToggleProvider(ToggleProvider(providers, provider), provider)) == multiset(providers)
  {
    var m := multiset(providers);
    var removed := ToggleProvider(providers, provider);
    assert provider !in removed && multiset(removed) == m[provider := 0];
    var again := ToggleProvider(removed, provider);
    assert again == removed + [provider];
    assert multiset(again) == m[provider := 0] + multiset{provider};
    OnlyOnce(providers, provider);
    assert m[provider := 0] + multiset{provider} == m;
  }

  /** A provider in a list without duplicates occurs in it exactly once. */
  lemma OnlyOnce(providers: seq<ImageProvider>, provider: ImageProvider)
    requires provider in providers && Unique(providers)
    ensures multiset(providers)[provider] == 1
  {
    var k :| 0 <= k < |providers| && providers[k] == provider;
    assert providers == providers[..k] + [provider] + providers[k + 1..];
    assert provider !in providers[..k] && provider !in providers[k + 1..] by {
      forall j | 0 <= j < |providers| && j != k ensures providers[j] != provider {
      }
    }
    assert multiset(providers) == multiset(providers[..k]) + multiset{provider} + multiset(providers[k + 1..]);
  }

  /** A list without duplicates stays without duplicates. */
  lemma ToggleKeepsUnique(providers: seq<ImageProvider>, provider: ImageProvider)
    requires Unique(providers)
    ensures Unique(ToggleProvider(providers, provider))
  {
    if provider in providers {
      FilterUnique(providers, Other(provider));
    } else {
      var r := providers + [provider];
      forall i, j | 0 <= i < j < |r| ensures r[i] != r[j] {
        if j == |providers| {
          assert r[i] == providers[i];
        }
      }
    }
  }

  const SavedMessage: string := "Settings saved successfully!"

  /** The settings page's state: the draft and the status line. */
  class SettingsPanel {
    var currentSettings: AppSettings
    var saveStatus: string

    /** The draft starts as a copy of the workspace settings. */
    constructor(settings: AppSettings)
      ensures currentSettings == settings && saveStatus == []
    {
      currentSettings := settings;
      saveStatus := [];
    }

    /** `handleImageProviderChange`: only the provider list changes. */
    method ToggleImageProvider(provider: ImageProvider)
      modifies this`currentSettings
      ensures currentSettings == old(currentSettings).(imageProviders := ToggleProvider(old(currentSettings).imageProviders, provider))
    {
      currentSettings := currentSettings.(imageProviders := ToggleProvider(currentSettings.imageProviders, provider));
    }

    /** The LLM provider selector. */
    method SetLlmProvider(value: LlmProvider)
      modifies this`currentSettings
      ensures currentSettings == old(currentSettings).(llmProvider := value)
    {
      currentSettings := currentSettings.(llmProvider := value);
    }

    /** The Gemini API key field. */
    method SetGeminiApiKey(value: string)
      modifies this`currentSettings
      ensures currentSettings == old(currentSettings).(geminiApiKey := value)
    {
      currentSettings := currentSettings.(geminiApiKey := value);
    }

    /** The Unsplash API key field. */
    method SetUnsplashApiKey(value: string)
      modifies this`currentSettings
      ensures currentSettings == old(currentSettings).(unsplashApiKey := value)
    {
      currentSettings := currentSettings.(unsplashApiKey := value);
    }

    /** `handleSave`: the draft is handed over as it is, and the status line
        reports success (its clearing after three seconds is not modelled). */
    method Save() returns (saved: AppSettings)
      modifies this`saveStatus
      ensures saved == currentSettings
      ensures saveStatus == SavedMessage
    {
      saved := currentSettings;
      saveStatus := SavedMessage;
    }
  }
}
