/** The model catalogue's records and constants, and the identifier resolver:
    alias lookup, the three-way existence check, resolution, the pricing
    lookup, the alias table handed to the help text, and the autocomplete
    filter of the interactive picker. */
module Catalog {
  import opened Wrappers
  import opened Seqs
  import opened JsText

  /** A price as the decimal text `parseFloat` reads it from. JavaScript's
      floating-point value of that text is not modelled. */
  type PriceText = string

  /** The display string of a record: a fixed label for the built-in list, or
      the label `formatPrice` derives from the two prices of a cached record. */
  datatype Pricing = Label(text: string) | Formatted(prompt: PriceText, completion: PriceText)

  datatype Model = Model(id: string, pricing: Pricing, promptPrice: PriceText, completionPrice: PriceText)

  /** Freshness limit of the cache file, in seconds. */
  const CacheTtlSeconds: int := 3600

  /** The built-in catalogue, used when neither the cache nor the API answers. */
  const FallbackModels: seq<Model> := [
    Model("anthropic/claude-sonnet-4", Label("$3/$15 per 1M tokens"), "3", "15"),
    Model("anthropic/claude-opus-4", Label("$15/$75 per 1M tokens"), "15", "75"),
    Model("anthropic/claude-haiku", Label("$0.25/$1.25 per 1M tokens"), "0.25", "1.25"),
    Model("google/gemini-2.0-flash", Label("$0.10/$0.40 per 1M tokens"), "0.1", "0.4"),
    Model("google/gemini-2.5-pro", Label("$1.25/$10 per 1M tokens"), "1.25", "10"),
    Model("openai/gpt-4o", Label("$2.50/$10 per 1M tokens"), "2.5", "10"),
    Model("openai/gpt-4o-mini", Label("$0.15/$0.60 per 1M tokens"), "0.15", "0.6"),
    Model("deepseek/deepseek-chat-v3", Label("$0.14/$0.28 per 1M tokens"), "0.14", "0.28"),
    Model("meta-llama/llama-3.3-70b-instruct", Label("$0.30/$0.40 per 1M tokens"), "0.3", "0.4"),
    Model("qwen/qwen-2.5-coder-32b-instruct", Label("$0.20/$0.20 per 1M tokens"), "0.2", "0.2")
  ]

  /** Identifier prefixes of coding-oriented models, listed first in a catalogue. */
  const CodingModelPrefixes: seq<string> := [
    "anthropic/claude", "openai/gpt-4", "openai/o1", "openai/o3", "google/gemini",
    "deepseek/deepseek", "meta-llama/llama", "qwen/qwen", "mistralai/mistral",
    "mistralai/codestral", "x-ai/grok"
  ]

  /** Shorthands accepted in place of a full identifier. */
  const ModelAliases: map<string, string> := map[
    "sonnet" := "anthropic/claude-sonnet-4",
    "sonnet4" := "anthropic/claude-sonnet-4",
    "opus" := "anthropic/claude-opus-4",
    "opus4" := "anthropic/claude-opus-4",
    "haiku" := "anthropic/claude-haiku",
    "flash" := "google/gemini-2.0-flash",
    "gemini" := "google/gemini-2.5-pro",
    "gemini-pro" := "google/gemini-2.5-pro",
    "gpt4" := "openai/gpt-4o",
    "gpt4o" := "openai/gpt-4o",
    "gpt4-mini" := "openai/gpt-4o-mini",
    "gpt4o-mini" := "openai/gpt-4o-mini",
    "deepseek" := "deepseek/deepseek-chat-v3",
    "llama" := "meta-llama/llama-3.3-70b-instruct",
    "llama3" := "meta-llama/llama-3.3-70b-instruct",
    "qwen" := "qwen/qwen-2.5-coder-32b-instruct",
    "qwen-coder" := "qwen/qwen-2.5-coder-32b-instruct"
  ]

  predicate IsCodingModel(id: string) {
    exists i :: 0 <= i < |CodingModelPrefixes| && StartsWith(id, CodingModelPrefixes[i])
  }

  /** The test is on prefixes only: whatever follows a coding model's
      identifier, the longer identifier is a coding model too. */
  lemma CodingIsPrefixClosed(id: string, suffix: string)
    requires IsCodingModel(id)
    ensures IsCodingModel(id + suffix)
  {
  }

  // ---------------------------------------------------------------------------
  // Alias resolution

  /** The canonical identifier for a shorthand; anything else passes through. */
  function ResolveAlias(alias: string): string {
    if alias in ModelAliases then ModelAliases[alias] else alias
  }

  /** The alias table, as handed to the help text. */
  function GetModelAliases(): (r: map<string, string>)
    ensures forall k :: k in r ==> ResolveAlias(k) == r[k] != k
    ensures forall k :: k !in r ==> ResolveAlias(k) == k
  {
    AliasTargetsAreNotKeys();
    ModelAliases
  }

  /** Every alias target is a full identifier, never itself a shorthand: the
      shorthands are at most 10 characters long, the targets at least 13. */
  lemma AliasTargetsAreNotKeys()
    ensures forall k :: k in ModelAliases ==> ModelAliases[k] !in ModelAliases
  {
    assert forall k :: k in ModelAliases ==> |k| <= 10 && |ModelAliases[k]| >= 13;
  }

  /** Resolving a resolved name changes nothing more. */
  lemma ResolveAliasIdempotent(x: string)
    ensures ResolveAlias(ResolveAlias(x)) == ResolveAlias(x)
  {
    AliasTargetsAreNotKeys();
  }

  // ---------------------------------------------------------------------------
  // Existence

  /** `[A-Za-z0-9_-]`, the characters of the provider part of an identifier. */
  predicate IsProviderChar(c: char) {
    'a' <= c <= 'z' || 'A' <= c <= 'Z' || '0' <= c <= '9' || c == '_' || c == '-'
  }

  /** `[A-Za-z0-9._-]`, the characters of the model part of an identifier. */
  predicate IsModelNameChar(c: char) {
    IsProviderChar(c) || c == '.'
  }

  /** The whole-string pattern `^[a-zA-Z0-9_-]+/[a-zA-Z0-9._-]+$`: a non-empty
      provider part, one slash, a non-empty model part. */
  predicate MatchesIdPattern(s: string) {
    exists k :: 0 < k < |s| - 1 && s[k] == '/'
      && (forall i :: 0 <= i < k ==> IsProviderChar(s[i]))
      && (forall i :: k < i < |s| ==> IsModelNameChar(s[i]))
  }

  /** Whether some record of `models` carries identifier `id`. */
  predicate Listed(id: string, models: seq<Model>) {
    exists m :: m in models && m.id == id
  }

  /** An identifier is accepted when it is in the loaded list, in the built-in
      list, or merely well-formed. */
  predicate ModelExists(id: string, models: seq<Model>) {
    Listed(id, models) || Listed(id, FallbackModels) || MatchesIdPattern(id)
  }

  /** A matching identifier has exactly one slash, and its parts are the text
      before and after it. */
  lemma PatternHasOneSlash(s: string)
    requires MatchesIdPattern(s)
    ensures Count(s, '/') == 1
  {
    var k :| 0 < k < |s| - 1 && s[k] == '/'
      && (forall i :: 0 <= i < k ==> IsProviderChar(s[i]))
      && (forall i :: k < i < |s| ==> IsModelNameChar(s[i]));
    var provider, name := s[..k], s[k + 1..];
    forall i | 0 <= i < |provider| ensures IsModelNameChar(provider[i]) {
      assert provider[i] == s[i];
    }
    forall i | 0 <= i < |name| ensures IsModelNameChar(name[i]) {
      assert name[i] == s[k + 1 + i];
    }
    NoSlashCount(provider);
    NoSlashCount(name);
    assert s == provider + ([s[k]] + name);
    CountAppend(provider, [s[k]] + name, '/');
    CountAppend([s[k]], name, '/');
    assert [s[k]][1..] == [];
    assert Count([s[k]], '/') == 1;
  }

  lemma {:induction false} NoSlashCount(s: string)
    requires forall i :: 0 <= i < |s| ==> IsModelNameChar(s[i])
    ensures Count(s, '/') == 0
  {
    if s != [] {
      NoSlashCount(s[1..]);
    }
  }

  lemma {:induction false} CountAppend(a: string, b: string, c: char)
    ensures Count(a + b, c) == Count(a, c) + Count(b, c)
  {
    if a != [] {
      assert (a + b)[0] == a[0] && (a + b)[1..] == a[1..] + b;
      CountAppend(a[1..], b, c);
    } else {
      assert a + b == b;
    }
  }

  /** Any well-formed provider and model part form an accepted identifier,
      whatever the loaded list holds. */
  lemma WellFormedIdAlwaysExists(provider: string, name: string, models: seq<Model>)
    requires provider != [] && forall i :: 0 <= i < |provider| ==> IsProviderChar(provider[i])
    requires name != [] && forall i :: 0 <= i < |name| ==> IsModelNameChar(name[i])
    ensures ModelExists(provider + "/" + name, models)
  {
    var s := provider + "/" + name;
    var k := |provider|;
    assert s[k] == '/';
    assert forall i :: 0 <= i < k ==> s[i] == provider[i];
    assert forall i :: k < i < |s| ==> s[i] == name[i - k - 1];
  }

  /** A well-formed identifier is accepted with an empty list. */
  lemma ExistenceExampleAccepted()
    ensures ModelExists("foo/bar", [])
  {
    WellFormedIdAlwaysExists("foo", "bar", []);
    assert "foo" + "/" + "bar" == "foo/bar";
  }

  /** The built-in identifiers are 13 to 33 characters long. */
  lemma FallbackIdLengths()
    ensures forall m :: m in FallbackModels ==> 13 <= |m.id| <= 33 && |m.id| != 14
  {
  }

  /** The empty string is rejected with an empty list. */
  lemma ExistenceExampleEmpty()
    ensures !ModelExists("", [])
  {
    FallbackIdLengths();
  }

  /** A name without a slash is rejected with an empty list. */
  lemma ExistenceExampleNoSlash()
    ensures !ModelExists("not-a-valid-id", [])
  {
    FallbackIdLengths();
    NoSlashIsMalformed();
  }

  lemma NoSlashIsMalformed()
    ensures !MatchesIdPattern("not-a-valid-id")
  {
    var s := "not-a-valid-id";
    assert '/' !in s;
    forall k | 0 < k < |s| - 1 ensures s[k] != '/' {
      assert s[k] in s;
    }
  }

  /** A `:free` variant is rejected with an empty list: ':' is not an
      identifier character. */
  lemma ExistenceExampleFree()
    ensures !ModelExists("x/y:free", [])
  {
    FallbackIdLengths();
    FreeSuffixIsMalformed();
  }

  lemma FreeSuffixIsMalformed()
    ensures !MatchesIdPattern("x/y:free")
  {
    var s := "x/y:free";
    forall k | 0 < k < |s| - 1 && s[k] == '/'
      ensures exists i :: k < i < |s| && !IsModelNameChar(s[i])
    {
      assert k == 1 by {
        assert s[2] != '/' && s[3] != '/' && s[4] != '/' && s[5] != '/' && s[6] != '/';
      }
      assert !IsModelNameChar(s[3]);
    }
  }

  // ---------------------------------------------------------------------------
  // Resolution and lookup

  /** The identifier a user's input stands for, or None (unknown model). */
  function ResolveModel(input: string, models: seq<Model>): (r: Option<string>)
    ensures r.Some? ==> r.value == ResolveAlias(input) && ModelExists(r.value, models)
    ensures r.None? ==> !ModelExists(ResolveAlias(input), models)
  {
    var resolved := ResolveAlias(input);
    if ModelExists(resolved, models) then Some(resolved) else None
  }

  /** The shorthands, spelled out. */
  lemma AliasKeys(k: string)
    requires k in ModelAliases
    ensures k == "sonnet" || k == "sonnet4" || k == "opus" || k == "opus4" || k == "haiku"
      || k == "flash" || k == "gemini" || k == "gemini-pro" || k == "gpt4" || k == "gpt4o"
      || k == "gpt4-mini" || k == "gpt4o-mini" || k == "deepseek" || k == "llama" || k == "llama3"
      || k == "qwen" || k == "qwen-coder"
  {
  }

  /** Every alias target is in the built-in list. */
  lemma AliasTargetsAreBuiltIn(k: string)
    requires k in ModelAliases
    ensures Listed(ModelAliases[k], FallbackModels)
  {
    AliasKeys(k);
    AliasValues();
    BuiltInIdsListed();
  }

  /** The table, entry by entry. */
  lemma AliasValues()
    ensures ModelAliases["sonnet"] == ModelAliases["sonnet4"] == "anthropic/claude-sonnet-4"
    ensures ModelAliases["opus"] == ModelAliases["opus4"] == "anthropic/claude-opus-4"
    ensures ModelAliases["haiku"] == "anthropic/claude-haiku"
    ensures ModelAliases["flash"] == "google/gemini-2.0-flash"
    ensures ModelAliases["gemini"] == ModelAliases["gemini-pro"] == "google/gemini-2.5-pro"
    ensures ModelAliases["gpt4"] == ModelAliases["gpt4o"] == "openai/gpt-4o"
    ensures ModelAliases["gpt4-mini"] == ModelAliases["gpt4o-mini"] == "openai/gpt-4o-mini"
    ensures ModelAliases["deepseek"] == "deepseek/deepseek-chat-v3"
    ensures ModelAliases["llama"] == ModelAliases["llama3"] == "meta-llama/llama-3.3-70b-instruct"
    ensures ModelAliases["qwen"] == ModelAliases["qwen-coder"] == "qwen/qwen-2.5-coder-32b-instruct"
  {
  }

  /** The identifiers the shorthands stand for, each found in the built-in list. */
  lemma BuiltInIdsListed()
    ensures Listed("anthropic/claude-sonnet-4", FallbackModels)
    ensures Listed("anthropic/claude-opus-4", FallbackModels)
    ensures Listed("anthropic/claude-haiku", FallbackModels)
    ensures Listed("google/gemini-2.0-flash", FallbackModels)
    ensures Listed("google/gemini-2.5-pro", FallbackModels)
    ensures Listed("openai/gpt-4o", FallbackModels)
    ensures Listed("openai/gpt-4o-mini", FallbackModels)
    ensures Listed("deepseek/deepseek-chat-v3", FallbackModels)
    ensures Listed("meta-llama/llama-3.3-70b-instruct", FallbackModels)
    ensures Listed("qwen/qwen-2.5-coder-32b-instruct", FallbackModels)
  {
    var ms := FallbackModels;
    assert ms[0] in ms && ms[1] in ms && ms[2] in ms && ms[3] in ms && ms[4] in ms;
    assert ms[5] in ms && ms[6] in ms && ms[7] in ms && ms[8] in ms && ms[9] in ms;
  }

  /** Every shorthand resolves, to its table entry, whatever list is loaded. */
  lemma AliasesAlwaysResolve(k: string, models: seq<Model>)
    requires k in ModelAliases
    ensures ResolveModel(k, models) == Some(ModelAliases[k])
  {
    AliasTargetsAreBuiltIn(k);
  }

  /** Index of the first record with identifier `id`, as `Array.prototype.find`
      picks it. */
  function FindModel(models: seq<Model>, id: string): (r: Option<nat>)
    ensures r.None? <==> !Listed(id, models)
    ensures r.Some? ==>
              && r.value < |models| && models[r.value].id == id
              && forall j :: 0 <= j < r.value ==> models[j].id != id
  {
    if models == [] then None
    else if models[0].id == id then Some(0)
    else
      match FindModel(models[1..], id)
      case None =>
        assert forall m :: m in models ==> m == models[0] || m in models[1..];
        None
      case Some(i) =>
        assert models[1..][i] in models;
        Some(i + 1)
  }

  /** The pricing label of the first record named `id`, or "unknown pricing"
      when there is none or its label is the empty string. */
  function GetModelPricing(id: string, models: seq<Model>): (r: Pricing)
    ensures !Listed(id, models) ==> r == Label("unknown pricing")
    ensures forall i :: (0 <= i < |models| && models[i].id == id
                         && (forall j :: 0 <= j < i ==> models[j].id != id)) ==>
                        r == if models[i].pricing == Label("") then Label("unknown pricing") else models[i].pricing
  {
    match FindModel(models, id)
    case None => Label("unknown pricing")
    case Some(i) =>
      assert forall i' :: (0 <= i' < |models| && models[i'].id == id
                           && (forall j :: 0 <= j < i' ==> models[j].id != id)) ==> i' == i;
      if models[i].pricing == Label("") then Label("unknown pricing") else models[i].pricing
  }

  // ---------------------------------------------------------------------------
  // Autocomplete filter of the interactive picker

  /** A menu entry: `name` and `value` are both the record's identifier. */
  datatype Choice = Choice(name: string, value: string)

  /** The entries the picker keeps for what the user has typed: when the
      lower-cased input is an alias, exactly the entries named by its target;
      otherwise the entries whose lower-cased name contains the lower-cased
      input. Order is kept. */
  function Suggest(input: string, choices: seq<Choice>): (r: seq<Choice>)
    ensures |r| <= |choices|
    ensures AsciiLower(input) in ModelAliases ==>
      forall c :: c in r <==> c in choices && c.name == ModelAliases[AsciiLower(input)]
    ensures AsciiLower(input) !in ModelAliases ==>
      forall c :: c in r <==> c in choices && Includes(AsciiLower(c.name), AsciiLower(input))
  {
    var search := AsciiLower(input);
    if search in ModelAliases then
      var target := ModelAliases[search];
      Filter(choices, (c: Choice) => c.name == target)
    else
      Filter(choices, (c: Choice) => Includes(AsciiLower(c.name), search))
  }

  /** The filter keeps the entries' order and multiplicity: filtering a list
      is filtering each part of it and concatenating the results. */
  lemma SuggestAppend(input: string, a: seq<Choice>, b: seq<Choice>)
    ensures Suggest(input, a + b) == Suggest(input, a) + Suggest(input, b)
  {
    var search := AsciiLower(input);
    if search in ModelAliases {
      var target := ModelAliases[search];
      FilterAppend(a, b, (c: Choice) => c.name == target);
    } else {
      FilterAppend(a, b, (c: Choice) => Includes(AsciiLower(c.name), search));
    }
  }

  /** Nothing typed yet: every entry is offered, in order. */
  lemma SuggestEmptyInputKeepsAll(choices: seq<Choice>)
    ensures Suggest("", choices) == choices
  {
    assert AsciiLower("") == "";
    assert "" !in ModelAliases;
    FilterAllPass(choices, (c: Choice) => Includes(AsciiLower(c.name), ""));
  }

  /** The filter ignores the case of ASCII letters in what is typed. */
  lemma SuggestIgnoresCase(input: string, choices: seq<Choice>)
    ensures Suggest(AsciiLower(input), choices) == Suggest(input, choices)
  {
    AsciiLowerIdempotent(input);
  }
}
