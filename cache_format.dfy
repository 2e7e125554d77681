/** The cache file format: one `id|prompt|completion` record per line. This
    module is the specification of reading it (the trim/split/filter/partition
    of `loadFromCache`); the loop that does it is `Loader.ModelCache.LoadFromCache`. */
module CacheFormat {
  import opened Wrappers
  import opened Seqs
  import opened JsText
  import opened Catalog

  /** The text of one record, `${id}|${prompt}|${completion}`. */
  function RecordLine(id: string, prompt: string, completion: string): string {
    id + "|" + prompt + "|" + completion
  }

  /** A cache line as a record: the first three `|`-separated fields must exist
      and be non-empty; further fields are ignored, and the price fields are
      kept whatever text they hold (a non-numeric price is not rejected). */
  function ParseLine(line: string): (r: Option<Model>)
    ensures r.Some? ==> Count(line, '|') >= 2
    ensures r.Some? ==> r.value.id != "" && '|' !in r.value.id
    ensures r.Some? ==> r.value.pricing == Formatted(r.value.promptPrice, r.value.completionPrice)
  {
    var fields := Split(line, '|');
    SplitLength(line, '|');
    if |fields| >= 3 && fields[0] != "" && fields[1] != "" && fields[2] != "" then
      Some(Model(fields[0], Formatted(fields[1], fields[2]), fields[1], fields[2]))
    else
      None
  }

  /** A record line built from three non-empty, `|`-free fields reads back as
      exactly that record. */
  lemma ParseRecordLine(id: string, prompt: string, completion: string)
    requires id != "" && prompt != "" && completion != ""
    requires '|' !in id && '|' !in prompt && '|' !in completion
    ensures ParseLine(RecordLine(id, prompt, completion))
            == Some(Model(id, Formatted(prompt, completion), prompt, completion))
  {
    SplitFields(id, prompt, completion);
    SplitNoSeparator(completion, '|');
  }

  lemma SplitFields(id: string, prompt: string, completion: string)
    requires '|' !in id && '|' !in prompt
    ensures var f := Split(RecordLine(id, prompt, completion), '|');
            |f| >= 3 && f[0] == id && f[1] == prompt && f[2] == Split(completion, '|')[0]
  {
    assert RecordLine(id, prompt, completion) == id + ['|'] + (prompt + ['|'] + completion);
    SplitAfterPiece(id, prompt + ['|'] + completion, '|');
    SplitAfterPiece(prompt, completion, '|');
    if '|' !in completion {
      SplitNoSeparator(completion, '|');
    }
  }

  /** Fields after the third are ignored. */
  lemma ParseLineIgnoresExtraFields(id: string, prompt: string, completion: string, rest: string)
    requires '|' !in id && '|' !in prompt && '|' !in completion
    ensures ParseLine(RecordLine(id, prompt, completion) + "|" + rest)
            == ParseLine(RecordLine(id, prompt, completion))
  {
    var extended := RecordLine(id, prompt, completion + "|" + rest);
    assert RecordLine(id, prompt, completion) + "|" + rest == extended;
    SplitFields(id, prompt, completion + "|" + rest);
    SplitFields(id, prompt, completion);
    SplitAfterPiece(completion, rest, '|');
    SplitNoSeparator(completion, '|');
  }

  /** A line with an empty id, prompt or completion field is skipped. */
  lemma ParseLineRejectsEmptyField(id: string, prompt: string, completion: string)
    requires '|' !in id && '|' !in prompt && '|' !in completion
    requires id == "" || prompt == "" || completion == ""
    ensures ParseLine(RecordLine(id, prompt, completion)).None?
  {
    SplitFields(id, prompt, completion);
    SplitNoSeparator(completion, '|');
  }

  /** Non-numeric price text is not rejected: parsing it is left to `parseFloat`,
      which yields NaN, and the record is kept. */
  lemma ParseLineKeepsNonNumericPrices()
    ensures ParseLine("x/y|n/a|free") == Some(Model("x/y", Formatted("n/a", "free"), "n/a", "free"))
  {
    assert "x/y|n/a|free" == RecordLine("x/y", "n/a", "free");
    ParseRecordLine("x/y", "n/a", "free");
  }

  predicate IsNonEmptyLine(line: string) {
    line != ""
  }

  /** `content.trim().split('\n').filter(line => line)`. */
  function CacheLines(content: string): (r: seq<string>)
    ensures forall l :: l in r ==> l != "" && '\n' !in l
  {
    Filter(Split(Trim(content), '\n'), IsNonEmptyLine)
  }

  /** The records of the lines that parse, in file order. */
  function KeptRecords(lines: seq<string>): seq<Model> {
    Collect(lines, ParseLine)
  }

  predicate IsCodingRecord(m: Model) {
    IsCodingModel(m.id)
  }

  predicate IsOtherRecord(m: Model) {
    !IsCodingModel(m.id)
  }

  /** The two buckets, coding models first, each in its original order. */
  function CodingFirst(records: seq<Model>): seq<Model> {
    Filter(records, IsCodingRecord) + Filter(records, IsOtherRecord)
  }

  /** What reading the cache file's content yields: the kept records, coding
      models first, or None when no record is kept. */
  function ParseCache(content: string): (r: Option<seq<Model>>)
    ensures r.Some? ==> |r.value| > 0
    ensures r.None? <==> KeptRecords(CacheLines(content)) == []
  {
    var records := KeptRecords(CacheLines(content));
    CodingFirstIsPermutation(records);
    var result := CodingFirst(records);
    if |result| > 0 then Some(result) else None
  }

  /** Regrouping loses and duplicates nothing. */
  lemma CodingFirstIsPermutation(records: seq<Model>)
    ensures multiset(CodingFirst(records)) == multiset(records)
    ensures |CodingFirst(records)| == |records|
  {
    PartitionIsPermutation(records, IsCodingRecord, IsOtherRecord);
    assert |multiset(CodingFirst(records))| == |multiset(records)|;
  }

  /** Every coding record comes before every other record. */
  lemma CodingFirstOrder(records: seq<Model>)
    ensures var r := CodingFirst(records);
            forall i, j :: 0 <= i < j < |r| && IsCodingModel(r[j].id) ==> IsCodingModel(r[i].id)
  {
    var coding, other := Filter(records, IsCodingRecord), Filter(records, IsOtherRecord);
    var r := CodingFirst(records);
    forall k | |coding| <= k < |r| ensures !IsCodingModel(r[k].id) {
      assert r[k] == other[k - |coding|];
      assert r[k] in other;
    }
    forall k | 0 <= k < |coding| ensures IsCodingModel(r[k].id) {
      assert r[k] == coding[k];
      assert r[k] in coding;
    }
  }

  /** Reading back lines joined by '\n' that each hold a record, and whose
      join starts and ends with a non-whitespace character, yields one record
      per line, coding models first. */
  lemma ParseJoinedLines(lines: seq<string>)
    requires |lines| >= 1
    requires forall l :: l in lines ==> l != "" && '\n' !in l && ParseLine(l).Some?
    requires lines[0] != "" && !IsJsWhitespace(lines[0][0])
    requires var last := lines[|lines| - 1]; last != "" && !IsJsWhitespace(last[|last| - 1])
    ensures ParseCache(Join(lines, '\n')) == Some(CodingFirst(KeptRecords(lines)))
    ensures |KeptRecords(lines)| == |lines|
    ensures forall i :: 0 <= i < |lines| ==> KeptRecords(lines)[i] == ParseLine(lines[i]).value
  {
    var content := Join(lines, '\n');
    JoinFirst(lines, '\n');
    JoinLast(lines, '\n');
    TrimUnchanged(content);
    SplitJoin(lines, '\n');
    FilterAllPass(lines, IsNonEmptyLine);
    assert CacheLines(content) == lines;
    CollectTotal(lines, ParseLine);
    CodingFirstIsPermutation(KeptRecords(lines));
  }
}
