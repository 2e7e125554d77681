/** The part of `fetchModels` that turns the API's model list into the text of
    the cache file: filter the entries, render each survivor as a record line,
    sort the lines, join them with '\n'. The loop that does it is
    `Loader.ModelCache.FetchModels`. */
module ModelFetch {
  import opened Wrappers
  import opened Seqs
  import opened JsText
  import opened Catalog
  import opened CacheFormat

  /** The `pricing` object of an API entry; either field may be absent. */
  datatype ApiPricing = ApiPricing(prompt: Option<string>, completion: Option<string>)

  /** One element of the API response's `data` array. */
  datatype ApiEntry = ApiEntry(id: Option<string>, pricing: Option<ApiPricing>)

  /** `parseFloat(text) * 1000000` as a template literal renders it, or None
      when the product is NaN. Floating-point arithmetic is not modelled, so
      the model takes this as a parameter. */
  type PriceScaler = string -> Option<string>

  /** A string property is truthy when it is present and non-empty. */
  predicate Truthy(field: Option<string>) {
    field.Some? && field.value != ""
  }

  /** The cache line an API entry contributes, if any. */
  function EntryLine(e: ApiEntry, scale: PriceScaler): Option<string> {
    if !Truthy(e.id) || e.pricing.None? || !Truthy(e.pricing.value.prompt)
       || !Truthy(e.pricing.value.completion) then None
    else if EndsWith(e.id.value, ":free") then None
    else
      var prompt := scale(e.pricing.value.prompt.value);
      var completion := scale(e.pricing.value.completion.value);
      if prompt.None? || completion.None? then None
      else Some(RecordLine(e.id.value, prompt.value, completion.value))
  }

  /** The lines of the kept entries, in API order (the `parsed` array before
      sorting). */
  function SurvivingLines(entries: seq<ApiEntry>, scale: PriceScaler): (r: seq<string>)
    ensures |r| <= |entries|
    ensures forall l :: l in r <==> exists e :: e in entries && EntryLine(e, scale) == Some(l)
  {
    var line := (e: ApiEntry) => EntryLine(e, scale);
    CollectComplete(entries, line);
    Collect(entries, line)
  }

  /** The text written to the cache file, or None when no entry survives (the
      fetch then fails and nothing is written). */
  function Serialise(entries: seq<ApiEntry>, scale: PriceScaler): (r: Option<string>)
    ensures r.None? <==> SurvivingLines(entries, scale) == []
  {
    var parsed := SurvivingLines(entries, scale);
    if |parsed| == 0 then None else Some(Join(SortStrings(parsed), '\n'))
  }

  /** The written file holds exactly the lines of the entries that pass the
      filter: every kept entry's line is in it, and nothing else is. */
  lemma FileHoldsExactlyKeptEntries(entries: seq<ApiEntry>, scale: PriceScaler)
    requires ScalerIsNewlineFree(scale) && KeptIdsAreNewlineFree(entries, scale)
    requires Serialise(entries, scale).Some?
    ensures forall l :: l in Split(Serialise(entries, scale).value, '\n') <==>
                        exists e :: e in entries && EntryLine(e, scale) == Some(l)
  {
    SerialisedFileLines(entries, scale);
    SameElements(Split(Serialise(entries, scale).value, '\n'), SurvivingLines(entries, scale));
  }

  /** The order of the API's list does not matter: the same entries in any
      order give the same file. */
  lemma SerialiseIgnoresApiOrder(a: seq<ApiEntry>, b: seq<ApiEntry>, scale: PriceScaler)
    requires multiset(a) == multiset(b)
    ensures Serialise(a, scale) == Serialise(b, scale)
  {
    var la, lb := SurvivingLines(a, scale), SurvivingLines(b, scale);
    CollectPermutation(a, b, (e: ApiEntry) => EntryLine(e, scale));
    assert |la| == |multiset(la)| == |multiset(lb)| == |lb|;
    SortedUnique(SortStrings(la), SortStrings(lb));
  }

  /** The sort compares whole lines, not identifiers: when one id extends
      another by a character that sorts before '|' (a letter, a digit, '-',
      '.', ':', '/'), the longer id's line comes first although the shorter id
      is the smaller identifier. */
  lemma {:induction false} LineOrderIsNotIdOrder(id: string, c: char, p: string, q: string, p2: string, q2: string)
    requires c < '|'
    ensures LexLe(id, id + [c]) && !LexLe(id + [c], id)
    ensures LexLe(RecordLine(id + [c], p, q), RecordLine(id, p2, q2))
    ensures !LexLe(RecordLine(id, p2, q2), RecordLine(id + [c], p, q))
    decreases |id|
  {
    if id == [] {
      assert RecordLine([c], p, q)[0] == c;
      assert RecordLine([], p2, q2)[0] == '|';
    } else {
      LineOrderIsNotIdOrder(id[1..], c, p, q, p2, q2);
      assert (id + [c])[1..] == id[1..] + [c];
      assert RecordLine(id + [c], p, q)[1..] == RecordLine(id[1..] + [c], p, q);
      assert RecordLine(id, p2, q2)[1..] == RecordLine(id[1..], p2, q2);
    }
  }

  // ---------------------------------------------------------------------------
  // Reading the file back

  /** An identifier the cache format can carry unchanged: no field separator,
      no line break, and no leading whitespace (which `trim` would strip from
      the file's first line). */
  predicate CacheSafeId(id: string) {
    '|' !in id && '\n' !in id && (id == "" || !IsJsWhitespace(id[0]))
  }

  /** A rendered price the cache format can carry unchanged. Every rendering of
      a JavaScript number that is not NaN has this shape. */
  predicate CacheSafeNumber(t: string) {
    t != "" && '|' !in t && '\n' !in t && !IsJsWhitespace(t[|t| - 1])
  }

  ghost predicate ScalerIsCacheSafe(scale: PriceScaler) {
    forall s :: scale(s).Some? ==> CacheSafeNumber(scale(s).value)
  }

  /** Every entry that is kept has an identifier the format can carry. Entries
      that are dropped are never written and may hold anything. */
  predicate KeptIdsAreCacheSafe(entries: seq<ApiEntry>, scale: PriceScaler) {
    forall e :: e in entries && EntryLine(e, scale).Some? ==> CacheSafeId(e.id.value)
  }

  /** The weaker condition under which the file splits back into its lines:
      no kept identifier and no rendered price holds a line break. */
  ghost predicate ScalerIsNewlineFree(scale: PriceScaler) {
    forall s :: scale(s).Some? ==> '\n' !in scale(s).value
  }

  predicate KeptIdsAreNewlineFree(entries: seq<ApiEntry>, scale: PriceScaler) {
    forall e :: e in entries && EntryLine(e, scale).Some? ==> '\n' !in e.id.value
  }

  /** A record line holds a line break only when one of its fields does. */
  lemma RecordLineNewlineFree(id: string, prompt: string, completion: string)
    ensures '\n' in RecordLine(id, prompt, completion) <==>
            '\n' in id || '\n' in prompt || '\n' in completion
  {
    assert RecordLine(id, prompt, completion) == id + "|" + prompt + "|" + completion;
  }

  /** A kept entry's line reads back as the record of its id and scaled prices. */
  lemma EntryLineReadsBack(e: ApiEntry, scale: PriceScaler)
    requires ScalerIsCacheSafe(scale)
    requires EntryLine(e, scale).Some? && CacheSafeId(e.id.value)
    ensures var l := EntryLine(e, scale).value;
            var p := scale(e.pricing.value.prompt.value).value;
            var c := scale(e.pricing.value.completion.value).value;
            && ParseLine(l) == Some(Model(e.id.value, Formatted(p, c), p, c))
            && l != "" && '\n' !in l && !IsJsWhitespace(l[0]) && !IsJsWhitespace(l[|l| - 1])
  {
    var id := e.id.value;
    var p := scale(e.pricing.value.prompt.value).value;
    var c := scale(e.pricing.value.completion.value).value;
    var l := RecordLine(id, p, c);
    ParseRecordLine(id, p, c);
    assert l == id + ("|" + p + "|" + c);
    assert l[0] == id[0];
    assert l[|l| - 1] == c[|c| - 1];
    assert [id, p, c][1..] == [p, c] && [p, c][1..] == [c];
    assert Join([p, c], '|') == p + ['|'] + c;
    assert Join([id, p, c], '|') == id + ['|'] + (p + ['|'] + c);
    assert Join([id, p, c], '|') == l;
    JoinFree([id, p, c], '|', '\n');
  }

  /** The properties of every line that survives. */
  lemma SurvivingLineIsCacheSafe(entries: seq<ApiEntry>, scale: PriceScaler, l: string)
    requires ScalerIsCacheSafe(scale) && KeptIdsAreCacheSafe(entries, scale)
    requires l in SurvivingLines(entries, scale)
    ensures l != "" && '\n' !in l && ParseLine(l).Some?
    ensures !IsJsWhitespace(l[0]) && !IsJsWhitespace(l[|l| - 1])
  {
    var e :| e in entries && EntryLine(e, scale) == Some(l);
    EntryLineReadsBack(e, scale);
  }

  /** The file holds the surviving lines, sorted, one per line. */
  lemma SerialisedFileLines(entries: seq<ApiEntry>, scale: PriceScaler)
    requires ScalerIsNewlineFree(scale) && KeptIdsAreNewlineFree(entries, scale)
    requires Serialise(entries, scale).Some?
    ensures var lines := Split(Serialise(entries, scale).value, '\n');
            && SortedLex(lines)
            && multiset(lines) == multiset(SurvivingLines(entries, scale))
  {
    var parsed := SurvivingLines(entries, scale);
    var sorted := SortStrings(parsed);
    forall l | l in sorted ensures '\n' !in l {
      assert l in multiset(parsed);
      var e :| e in entries && EntryLine(e, scale) == Some(l);
      RecordLineNewlineFree(e.id.value, scale(e.pricing.value.prompt.value).value,
                            scale(e.pricing.value.completion.value).value);
    }
    assert |sorted| == |multiset(parsed)| == |parsed| >= 1;
    SplitJoin(sorted, '\n');
  }

  /** Round trip: reading back a written cache file yields exactly the records
      of the surviving entries, coding models first, each bucket in the sorted
      order of the file. */
  lemma SerialiseRoundTrip(entries: seq<ApiEntry>, scale: PriceScaler)
    requires ScalerIsCacheSafe(scale) && KeptIdsAreCacheSafe(entries, scale)
    requires Serialise(entries, scale).Some?
    ensures var sorted := SortStrings(SurvivingLines(entries, scale));
            ParseCache(Serialise(entries, scale).value) == Some(CodingFirst(KeptRecords(sorted)))
    ensures var read := ParseCache(Serialise(entries, scale).value);
            && read.Some?
            && multiset(read.value) == multiset(KeptRecords(SurvivingLines(entries, scale)))
            && |read.value| == |SurvivingLines(entries, scale)|
  {
    var parsed := SurvivingLines(entries, scale);
    var sorted := SortStrings(parsed);
    forall l | l in sorted
      ensures l != "" && '\n' !in l && ParseLine(l).Some?
      ensures !IsJsWhitespace(l[0]) && !IsJsWhitespace(l[|l| - 1])
    {
      assert l in multiset(parsed);
      SurvivingLineIsCacheSafe(entries, scale, l);
    }
    assert |sorted| == |multiset(parsed)| == |parsed| >= 1;
    assert sorted[0] in sorted && sorted[|sorted| - 1] in sorted;
    ParseJoinedLines(sorted);
    CodingFirstIsPermutation(KeptRecords(sorted));
    CollectPermutation(sorted, parsed, ParseLine);
  }
}
