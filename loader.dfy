/** The catalogue loader: the cache file as mutable state, the freshness check,
    reading the cache, the fetch that rewrites it, and the four-tier load
    (fresh cache, fetch then re-read, stale cache, built-in list). The file
    system, the clock and the network are the state and the environment
    below. */
module Loader {
  import opened Wrappers
  import opened Seqs
  import opened JsText
  import opened Catalog
  import opened CacheFormat
  import opened ModelFetch

  /** The cache file: its content, None when reading it throws, and its
      modification time in milliseconds, None when `statSync` throws. */
  datatype CacheFile = CacheFile(content: Option<string>, mtimeMs: Option<real>)

  /** How the one request to the model-list endpoint ends. */
  datatype Response =
    | NetworkError                      // the request or reading the body throws
    | NotOk                             // the response status is not ok
    | InvalidBody                       // the body has no `data` array
    | Listing(entries: seq<ApiEntry>)   // the `data` array

  /** What a load depends on besides the cache file: the clock (`Date.now()`),
      the API's answer, whether creating the cache directory and writing the
      file succeed, and the number rendering of scaled prices. */
  datatype Env = Env(nowMs: int, response: Response, writable: bool, scale: PriceScaler)

  /** The file exists, can be stat'ed, and its age is under `CacheTtlSeconds`. */
  predicate CacheValid(file: Option<CacheFile>, nowMs: int) {
    && file.Some? && file.value.mtimeMs.Some?
    && nowMs as real - file.value.mtimeMs.value < (CacheTtlSeconds * 1000) as real
  }

  /** What `loadFromCache` returns for the file as it is. */
  function ReadCache(file: Option<CacheFile>): (r: Option<seq<Model>>)
    ensures r.Some? ==> |r.value| > 0
  {
    match file
    case None => None
    case Some(f) => if f.content.None? then None else ParseCache(f.content.value)
  }

  /** The text a fetch would write, or None when the fetch fails. */
  function FetchedText(env: Env): Option<string> {
    if env.response.Listing? then Serialise(env.response.entries, env.scale) else None
  }

  predicate FetchSucceeds(env: Env) {
    env.writable && FetchedText(env).Some?
  }

  /** What `fetchModels` returns and the cache file afterwards: on success the
      file holds the fetched text and is stamped with the current time; on
      failure it is untouched. */
  function AfterFetch(file: Option<CacheFile>, env: Env): (bool, Option<CacheFile>) {
    if FetchSucceeds(env) then (true, Some(CacheFile(Some(FetchedText(env).value), Some(env.nowMs as real))))
    else (false, file)
  }

  /** What `loadModels(forceRefresh)` returns and the cache file afterwards. */
  function LoadSpec(file: Option<CacheFile>, forceRefresh: bool, env: Env): (r: (seq<Model>, Option<CacheFile>))
    ensures |r.0| > 0
  {
    if !forceRefresh && CacheValid(file, env.nowMs) && ReadCache(file).Some? then
      (ReadCache(file).value, file)
    else
      var (fetched, file') := AfterFetch(file, env);
      if fetched && ReadCache(file').Some? then (ReadCache(file').value, file')
      else if file'.Some? && ReadCache(file').Some? then (ReadCache(file').value, file')
      else (FallbackModels, file')
  }

  // ---------------------------------------------------------------------------
  // Properties of a load

  /** Freshness is strict at one hour: a file exactly 3600 s old is stale, one a
      millisecond younger is fresh, and a file that cannot be stat'ed, or is
      missing, is never fresh. */
  lemma FreshnessBoundary(content: Option<string>, mtimeMs: int)
    ensures !CacheValid(Some(CacheFile(content, Some(mtimeMs as real))), mtimeMs + 3_600_000)
    ensures CacheValid(Some(CacheFile(content, Some(mtimeMs as real))), mtimeMs + 3_599_999)
    ensures !CacheValid(Some(CacheFile(content, None)), mtimeMs)
    ensures !CacheValid(None, mtimeMs)
  {
  }

  /** A fresh cache that parses answers an unforced load on its own: the file
      is left as it is and the API's answer is never consulted. */
  lemma FreshCacheShortCircuits(file: Option<CacheFile>, env: Env, other: Env)
    requires CacheValid(file, env.nowMs) && ReadCache(file).Some?
    requires other.nowMs == env.nowMs
    ensures LoadSpec(file, false, env) == (ReadCache(file).value, file)
    ensures LoadSpec(file, false, other) == LoadSpec(file, false, env)
  {
  }

  /** When the fetch fails, a cache that parses is used whatever its age, and
      the file is left as it is. */
  lemma FailedFetchUsesStaleCache(file: Option<CacheFile>, forceRefresh: bool, env: Env)
    requires !FetchSucceeds(env) && ReadCache(file).Some?
    ensures LoadSpec(file, forceRefresh, env) == (ReadCache(file).value, file)
  {
  }

  /** When the fetch fails and the cache is missing, unreadable or holds no
      record, the load yields the ten built-in models. */
  lemma NothingUsableGivesBuiltInList(file: Option<CacheFile>, forceRefresh: bool, env: Env)
    requires !FetchSucceeds(env) && ReadCache(file).None?
    ensures LoadSpec(file, forceRefresh, env) == (FallbackModels, file)
    ensures |LoadSpec(file, forceRefresh, env).0| == 10
  {
    assert AfterFetch(file, env) == (false, file);
  }

  /** A load that fetches (because it is forced, or the cache is stale or
      unusable) and whose fetch succeeds: the file now holds the sorted lines of
      the surviving entries stamped with the current time, and the models are
      read back from it: one per surviving entry, coding models first. */
  lemma SuccessfulFetchIsReadBack(file: Option<CacheFile>, forceRefresh: bool, env: Env)
    requires FetchSucceeds(env)
    requires forceRefresh || !CacheValid(file, env.nowMs) || ReadCache(file).None?
    requires ScalerIsCacheSafe(env.scale) && KeptIdsAreCacheSafe(env.response.entries, env.scale)
    ensures var survivors := SurvivingLines(env.response.entries, env.scale);
            var (models, file') := LoadSpec(file, forceRefresh, env);
            && file' == Some(CacheFile(Serialise(env.response.entries, env.scale), Some(env.nowMs as real)))
            && models == CodingFirst(KeptRecords(SortStrings(survivors)))
            && multiset(models) == multiset(KeptRecords(survivors))
            && |models| == |survivors|
  {
    var text := Serialise(env.response.entries, env.scale).value;
    var file' := Some(CacheFile(Some(text), Some(env.nowMs as real)));
    SerialiseRoundTrip(env.response.entries, env.scale);
    assert AfterFetch(file, env) == (true, file');
    assert ReadCache(file') == ParseCache(text);
  }

  /** After a load that fetched, an unforced load within the next hour is
      answered by the file just written: same models, no further fetch, file
      unchanged, whatever the API would answer then. */
  lemma FetchedCacheServesNextLoad(file: Option<CacheFile>, forceRefresh: bool, env: Env, later: Env)
    requires FetchSucceeds(env)
    requires forceRefresh || !CacheValid(file, env.nowMs) || ReadCache(file).None?
    requires ParseCache(FetchedText(env).value).Some?
    requires later.nowMs - env.nowMs < CacheTtlSeconds * 1000
    ensures var (models, file') := LoadSpec(file, forceRefresh, env);
            LoadSpec(file', false, later) == (models, file')
  {
    var text := FetchedText(env).value;
    var file' := Some(CacheFile(Some(text), Some(env.nowMs as real)));
    assert AfterFetch(file, env) == (true, file');
    assert ReadCache(file') == ParseCache(text);
    assert LoadSpec(file, forceRefresh, env) == (ReadCache(file').value, file');
    assert CacheValid(file', later.nowMs);
    FreshCacheShortCircuits(file', later, later);
  }

  /** The API listing of the first-run scenario below: a priced entry, a
      priced `:free` entry and an entry without pricing. */
  function FirstRunListing(id: string, freeName: string, other: string, prompt: string, completion: string): seq<ApiEntry> {
    [ApiEntry(Some(id), Some(ApiPricing(Some(prompt), Some(completion)))),
     ApiEntry(Some(freeName + ":free"), Some(ApiPricing(Some(prompt), Some(completion)))),
     ApiEntry(Some(other), None)]
  }

  /** Of that listing only the first entry survives. */
  lemma FirstRunSurvivors(id: string, freeName: string, other: string, scale: PriceScaler, prompt: string, completion: string)
    requires id != "" && !EndsWith(id, ":free")
    requires prompt != "" && completion != ""
    requires scale(prompt).Some? && scale(completion).Some?
    ensures SurvivingLines(FirstRunListing(id, freeName, other, prompt, completion), scale)
            == [RecordLine(id, scale(prompt).value, scale(completion).value)]
  {
    var entries := FirstRunListing(id, freeName, other, prompt, completion);
    var f := (e: ApiEntry) => EntryLine(e, scale);
    assert (freeName + ":free")[|freeName|..] == ":free";
    assert f(entries[1]).None?;
    assert entries[..0] == [] && entries[..3] == entries;
    CollectPrefixStep(entries, 0, f);
    CollectPrefixStep(entries, 1, f);
    CollectPrefixStep(entries, 2, f);
  }

  /** A file of one well-formed record line reads back as that one record. */
  lemma OneRecordReadsBack(id: string, prompt: string, completion: string)
    requires id != "" && '|' !in id
    requires CacheSafeNumber(prompt) && CacheSafeNumber(completion)
    ensures CodingFirst(KeptRecords(SortStrings([RecordLine(id, prompt, completion)])))
            == [Model(id, Formatted(prompt, completion), prompt, completion)]
  {
    var line := RecordLine(id, prompt, completion);
    assert SortStrings([line]) == [line];
    ParseRecordLine(id, prompt, completion);
    var m := Model(id, Formatted(prompt, completion), prompt, completion);
    assert [line][..0] == [];
    assert KeptRecords([line]) == [m];
    CodingFirstIsPermutation([m]);
    assert m in multiset(CodingFirst([m]));
    assert CodingFirst([m])[0] == m;
  }

  /** A first run with no cache file, where the API lists a priced entry, a
      priced `:free` entry and an entry without pricing: the file is written
      with the priced entry's line alone, stamped now, and the load yields
      exactly that entry's model with its scaled prices. */
  lemma FirstRunKeepsPricedEntry(env: Env, id: string, freeName: string, other: string, prompt: string, completion: string)
    requires env.writable && ScalerIsCacheSafe(env.scale)
    requires id != "" && !EndsWith(id, ":free") && CacheSafeId(id)
    requires prompt != "" && completion != ""
    requires env.scale(prompt).Some? && env.scale(completion).Some?
    requires env.response == Listing(FirstRunListing(id, freeName, other, prompt, completion))
    ensures var p, c := env.scale(prompt).value, env.scale(completion).value;
            var (models, file') := LoadSpec(None, false, env);
            && models == [Model(id, Formatted(p, c), p, c)]
            && file' == Some(CacheFile(Some(RecordLine(id, p, c)), Some(env.nowMs as real)))
  {
    var p, c := env.scale(prompt).value, env.scale(completion).value;
    assert CacheSafeNumber(p) && CacheSafeNumber(c);
    FirstRunSurvivors(id, freeName, other, env.scale, prompt, completion);
    var entries := env.response.entries;
    assert forall e :: e in entries ==> e == entries[0] || e == entries[1] || e == entries[2];
    assert KeptIdsAreCacheSafe(entries, env.scale);
    SuccessfulFetchIsReadBack(None, false, env);
    OneRecordReadsBack(id, p, c);
    assert SortStrings([RecordLine(id, p, c)]) == [RecordLine(id, p, c)];
    assert Join([RecordLine(id, p, c)], '\n') == RecordLine(id, p, c);
  }

  /** What one more cache line does to the two buckets of `loadFromCache`. */
  lemma KeptStep(lines: seq<string>, i: nat)
    requires i < |lines|
    ensures ParseLine(lines[i]).None? ==> KeptRecords(lines[..i + 1]) == KeptRecords(lines[..i])
    ensures ParseLine(lines[i]).Some? ==>
              var m := ParseLine(lines[i]).value;
              var kept := KeptRecords(lines[..i]);
              && Filter(KeptRecords(lines[..i + 1]), IsCodingRecord)
                 == Filter(kept, IsCodingRecord) + (if IsCodingModel(m.id) then [m] else [])
              && Filter(KeptRecords(lines[..i + 1]), IsOtherRecord)
                 == Filter(kept, IsOtherRecord) + (if IsCodingModel(m.id) then [] else [m])
  {
    CollectPrefixStep(lines, i, ParseLine);
    if ParseLine(lines[i]).Some? {
      var m := ParseLine(lines[i]).value;
      var kept := KeptRecords(lines[..i]);
      assert KeptRecords(lines[..i + 1]) == kept + [m];
      FilterSnoc(kept, m, IsCodingRecord);
      FilterSnoc(kept, m, IsOtherRecord);
    }
  }

  class ModelCache {
    var file: Option<CacheFile>

    constructor (initial: Option<CacheFile>)
      ensures file == initial
    {
      file := initial;
    }

    /** `isCacheValid`. */
    method IsCacheValid(nowMs: int) returns (valid: bool)
      ensures valid == CacheValid(file, nowMs)
    {
      if file.None? {
        return false;
      }
      match file.value.mtimeMs {
        case None =>
          valid := false;
        case Some(mtimeMs) =>
          var ageSeconds := (nowMs as real - mtimeMs) / 1000.0;
          valid := ageSeconds < CacheTtlSeconds as real;
      }
    }

    /** `loadFromCache`: one pass over the lines, pushing each kept record onto
        the coding or the other bucket. */
    method LoadFromCache() returns (cached: Option<seq<Model>>)
      ensures cached == ReadCache(file)
    {
      if file.None? || file.value.content.None? {
        return None;
      }
      var lines := CacheLines(file.value.content.value);
      var codingModels: seq<Model> := [];
      var otherModels: seq<Model> := [];
      for i := 0 to |lines|
        invariant codingModels == Filter(KeptRecords(lines[..i]), IsCodingRecord)
        invariant otherModels == Filter(KeptRecords(lines[..i]), IsOtherRecord)
      {
        KeptStep(lines, i);
        var fields := Split(lines[i], '|');
        if |fields| < 3 || fields[0] == "" || fields[1] == "" || fields[2] == "" {
          assert ParseLine(lines[i]).None?;
          continue;
        }
        var model := Model(fields[0], Formatted(fields[1], fields[2]), fields[1], fields[2]);
        assert ParseLine(lines[i]) == Some(model);
        if IsCodingModel(model.id) {
          codingModels := codingModels + [model];
        } else {
          otherModels := otherModels + [model];
        }
      }
      assert lines[..|lines|] == lines;
      var result := codingModels + otherModels;
      cached := if |result| > 0 then Some(result) else None;
    }

    /** `fetchModels`: collect the lines of the kept entries, sort them, and
        overwrite the cache file; nothing is written when none is kept. */
    method FetchModels(env: Env) returns (ok: bool)
      modifies this
      ensures (ok, file) == AfterFetch(old(file), env)
    {
      if !env.response.Listing? {
        return false;
      }
      var entries := env.response.entries;
      var parsed: seq<string> := [];
      for i := 0 to |entries|
        invariant parsed == SurvivingLines(entries[..i], env.scale)
      {
        assert entries[..i + 1][..i] == entries[..i];
        var model := entries[i];
        if !Truthy(model.id) || model.pricing.None? || !Truthy(model.pricing.value.prompt)
           || !Truthy(model.pricing.value.completion) {
          continue;
        }
        if EndsWith(model.id.value, ":free") {
          continue;
        }
        var promptPrice := env.scale(model.pricing.value.prompt.value);
        var completionPrice := env.scale(model.pricing.value.completion.value);
        if promptPrice.None? || completionPrice.None? {
          continue;
        }
        parsed := parsed + [model.id.value + "|" + promptPrice.value + "|" + completionPrice.value];
      }
      assert entries[..|entries|] == entries;
      if |parsed| == 0 {
        return false;
      }
      parsed := SortStrings(parsed);
      if !env.writable {
        return false;
      }
      file := Some(CacheFile(Some(Join(parsed, '\n')), Some(env.nowMs as real)));
      ok := true;
    }

    /** `loadModels`: the four tiers in order; the first that yields a
        non-empty list wins. */
    method Load(forceRefresh: bool, env: Env) returns (models: seq<Model>)
      modifies this
      ensures (models, file) == LoadSpec(old(file), forceRefresh, env)
      ensures |models| > 0
      ensures !forceRefresh && CacheValid(old(file), env.nowMs) && ReadCache(old(file)).Some? ==>
                models == ReadCache(old(file)).value && file == old(file)
      ensures !FetchSucceeds(env) ==> file == old(file)
      ensures !FetchSucceeds(env) && ReadCache(old(file)).None? ==> models == FallbackModels
    {
      if !forceRefresh {
        var valid := IsCacheValid(env.nowMs);
        if valid {
          var cached := LoadFromCache();
          if cached.Some? {
            return cached.value;
          }
        }
      }
      var fetched := FetchModels(env);
      if fetched {
        var cached := LoadFromCache();
        if cached.Some? {
          return cached.value;
        }
      }
      if file.Some? {
        var cached := LoadFromCache();
        if cached.Some? {
          return cached.value;
        }
      }
      return FallbackModels;
    }
  }
}
