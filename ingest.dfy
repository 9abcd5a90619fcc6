/**
 * The ingestion script for the installation, compatibility and troubleshooting documents: it
 * turns each raw JSON record into a vector-store document (`to_doc`), drops the documents with
 * empty text, drops repeated ids keeping the first, and sends the rest in batches of 128.
 */
module Ingest {
  import opened Wrappers
  import opened Text
  import opened Seqs
  import opened VectorStore

  /** A field the script accepts either as a list of strings (joined with `", "`) or as a single
      string (kept as it is). */
  datatype ListOrText = Items(items: seq<string>) | Single(text: string)

  /** One entry of a troubleshooting record's `common_parts` list: an object with a
      `part_name`, or anything else. */
  datatype PartEntry = NamedPart(partName: string) | Unnamed

  /** A raw record as loaded from one of the JSON files, `None` for an absent field. A
      `common_parts` value that is not a list is also `None`: the script treats it like a
      missing one. */
  datatype RawRecord = RawRecord(
    id: Option<string>, partNumber: Option<string>, title: Option<string>, text: Option<string>,
    url: Option<string>, appliance: Option<string>,
    difficulty: Option<string>, timeRequired: Option<string>, tools: Option<ListOrText>,
    models: Option<ListOrText>, brands: Option<ListOrText>, notes: Option<string>,
    symptom: Option<string>, commonParts: Option<seq<PartEntry>>)

  /** The three data files, in the order they are read. */
  datatype Source = Installation | Compatibility | Troubleshooting

  /** The name a source goes by in ids and in the `source` metadata field. */
  function SourceName(source: Source): string {
    match source
    case Installation => "installation"
    case Compatibility => "compatibility"
    case Troubleshooting => "troubleshooting"
  }

  const Sources: seq<Source> := [Installation, Compatibility, Troubleshooting]

  /** The fields a document's metadata adds for its source. */
  datatype Extra =
    | InstallationExtra(difficulty: string, timeRequired: string, tools: string)
    | CompatibilityExtra(models: string, brands: string, notes: string)
    | TroubleshootingExtra(symptom: string, commonParts: string)

  /** A document's metadata: the `source`, `title`, `url`, `part_number` and `appliance` fields
      every document has, and the fields of its source. */
  datatype Meta = Meta(source: string, title: string, url: string, partNumber: string, appliance: string, extra: Extra)

  /** A vector-store document: `{"id", "document", "metadata"}`. */
  datatype Doc = Doc(id: string, document: string, metadata: Meta)

  /** The number of documents sent in one `collection.add` call. */
  const BatchSize := 128

  /** The number of models kept in a compatibility document's metadata. */
  const ModelsCap := 100

  /** `raw.get(name, "")`, and also `raw.get(name) or ""`: both give `""` for an absent or
      empty string. */
  function Field(value: Option<string>): string {
    value.GetOr("")
  }

  /** `str(value)` of an optional string, as an f-string renders it. */
  function Rendered(value: Option<string>): string {
    if value.Some? then value.value else "None"
  }

  /** `raw.get('part_number') or raw.get('title')` */
  function FallbackName(raw: RawRecord): string {
    if Truthy(raw.partNumber) then raw.partNumber.value else Rendered(raw.title)
  }

  /** `", ".join(v)` for a list, `str(v)` otherwise, `""` when absent. */
  function Joined(value: Option<ListOrText>): string {
    match value
    case None => ""
    case Some(Items(xs)) => Join(xs, ", ")
    case Some(Single(s)) => s
  }

  /** The compatibility `models` field: at most the first `ModelsCap` models. */
  function CappedModels(value: Option<ListOrText>): string {
    match value
    case None => ""
    case Some(Items(xs)) => Join(PyPrefix(xs, ModelsCap), ", ")
    case Some(Single(s)) => s
  }

  /** The `part_name` of every entry that has one, in order. */
  function PartNames(entries: seq<PartEntry>): seq<string> {
    if entries == [] then []
    else
      var p := entries[..|entries| - 1];
      var e := entries[|entries| - 1];
      PartNames(p) + (if e.NamedPart? then [e.partName] else [])
  }

  /** The names are those of the named entries, in order: the unnamed entries are all that
      is dropped. */
  lemma {:induction false} PartNamesAreNamedEntries(entries: seq<PartEntry>)
    ensures forall n :: n in PartNames(entries) <==> NamedPart(n) in entries
    ensures |PartNames(entries)| + multiset(entries)[Unnamed] == |entries|
  {
    if entries != [] {
      var p := entries[..|entries| - 1];
      PartNamesAreNamedEntries(p);
      assert entries == p + [entries[|entries| - 1]];
    }
  }

  /** The fields added for the record's source. */
  function ExtraOf(source: Source, raw: RawRecord): (e: Extra)
    ensures e.InstallationExtra? <==> source == Installation
    ensures e.CompatibilityExtra? <==> source == Compatibility
    ensures e.TroubleshootingExtra? <==> source == Troubleshooting
  {
    match source
    case Installation => InstallationExtra(Field(raw.difficulty), Field(raw.timeRequired), Joined(raw.tools))
    case Compatibility => CompatibilityExtra(CappedModels(raw.models), Joined(raw.brands), Field(raw.notes))
    case Troubleshooting => TroubleshootingExtra(Field(raw.symptom), Join(PartNames(raw.commonParts.GetOr([])), ", "))
  }

  /** `u` is `s` cut before its first `?`: no `?` in it, a prefix of `s`, and followed in `s` by
      a `?` when it is shorter. */
  predicate CutAtQuery(s: string, u: string) {
    '?' !in u && u <= s && (|u| < |s| ==> s[|u|] == '?')
  }

  /** The document id: the raw `id` when it is truthy, otherwise the source and the part
      number or title. */
  function DocId(source: Source, raw: RawRecord): (id: string)
    ensures Truthy(raw.id) ==> id == raw.id.value
    ensures !Truthy(raw.id) ==> id == SourceName(source) + "-" + FallbackName(raw)
    ensures id != ""
  {
    if Truthy(raw.id) then raw.id.value else SourceName(source) + "-" + FallbackName(raw)
  }

  /** `to_doc`'s metadata: the source's name, the common fields with `""` defaults and the
      URL cut before its query string, then the fields of the source. */
  function MetadataOf(source: Source, raw: RawRecord): (meta: Meta)
    ensures meta.source == SourceName(source)
    ensures CutAtQuery(Field(raw.url), meta.url)
    ensures meta.title == Field(raw.title) && meta.partNumber == Field(raw.partNumber)
    ensures meta.appliance == Field(raw.appliance)
    ensures meta.extra == ExtraOf(source, raw)
  {
    Meta(SourceName(source), Field(raw.title), BeforeFirst(Field(raw.url), '?'), Field(raw.partNumber),
         Field(raw.appliance), ExtraOf(source, raw))
  }

  /** `to_doc`: the id, the trimmed text and the metadata of the record. */
  function ToDoc(source: Source, raw: RawRecord): (d: Doc)
    ensures d.id == DocId(source, raw) && d.id != ""
    ensures d.document == Strip(Field(raw.text))
    ensures d.metadata == MetadataOf(source, raw) && d.metadata.source == SourceName(source)
  {
    Doc(DocId(source, raw), Strip(Field(raw.text)), MetadataOf(source, raw))
  }

  /** The document text is the raw text without the white space around it. */
  lemma DocumentIsTrimmedText(source: Source, raw: RawRecord)
    ensures var d := ToDoc(source, raw).document;
      d == [] || (!IsSpace(d[0]) && !IsSpace(d[|d| - 1]))
    ensures var t := Field(raw.text);
      exists i, j :: 0 <= i <= j <= |t| && ToDoc(source, raw).document == t[i..j]
        && (forall k :: 0 <= k < i ==> IsSpace(t[k]))
        && (forall k :: j <= k < |t| ==> IsSpace(t[k]))
  {
    StripRemovesOnlySpace(Field(raw.text));
  }

  /** An installation document lists its tools; a compatibility document lists at most the
      first `ModelsCap` models; a troubleshooting document lists the named common parts. */
  lemma EnrichedMetadata(raw: RawRecord)
    ensures ToDoc(Installation, raw).metadata.extra.tools == Joined(raw.tools)
    ensures raw.models.Some? && raw.models.value.Items? ==>
      var xs := raw.models.value.items;
      exists ms :: ms <= xs && |ms| == (if |xs| < ModelsCap then |xs| else ModelsCap)
        && ToDoc(Compatibility, raw).metadata.extra.models == Join(ms, ", ")
    ensures ToDoc(Troubleshooting, raw).metadata.extra.commonParts == Join(PartNames(raw.commonParts.GetOr([])), ", ")
  {
    if raw.models.Some? && raw.models.value.Items? {
      var xs := raw.models.value.items;
      var ms := PyPrefix(xs, ModelsCap);
      assert ToDoc(Compatibility, raw).metadata.extra.models == Join(ms, ", ");
    }
  }

  /** `batch` never makes chunks shorter than one element. */
  function ChunkLength(size: int): nat {
    if size < 1 then 1 else size
  }

  /** `batch(xs, size)`: the chunks put back together are `xs`; every chunk is non-empty and
      all but the last have exactly the chunk length. */
  method Batch<T>(xs: seq<T>, size: int) returns (chunks: seq<seq<T>>)
    ensures Flatten(chunks) == xs
    ensures forall i :: 0 <= i < |chunks| ==> 0 < |chunks[i]| <= ChunkLength(size)
    ensures forall i :: 0 <= i < |chunks| - 1 ==> |chunks[i]| == ChunkLength(size)
  {
    chunks := [];
    var buf: seq<T> := [];
    for i := 0 to |xs|
      invariant Flatten(chunks) + buf == xs[..i]
      invariant |buf| < ChunkLength(size)
      invariant forall j :: 0 <= j < |chunks| ==> |chunks[j]| == ChunkLength(size)
    {
      assert xs[..i + 1] == xs[..i] + [xs[i]];
      buf := buf + [xs[i]];
      assert Flatten(chunks) + buf == xs[..i + 1];
      if |buf| >= size {
        FlattenSnoc(chunks, buf);
        chunks := chunks + [buf];
        buf := [];
      }
    }
    assert xs[..|xs|] == xs;
    if |buf| > 0 {
      FlattenSnoc(chunks, buf);
      chunks := chunks + [buf];
    }
  }

  /** The rows read for a source: none when its file is missing. */
  function RowsOf(loaded: map<Source, seq<RawRecord>>, source: Source): seq<RawRecord> {
    if source in loaded then loaded[source] else []
  }

  /** The documents made from `rows`, without those whose text is empty. */
  function NonEmptyDocs(source: Source, rows: seq<RawRecord>): (docs: seq<Doc>)
    ensures |docs| <= |rows|
  {
    FilterMap(rows, Normalised(source))
  }

  /** The loop body on one row: its document, or `None` when the document's text is empty. */
  function Normalised(source: Source): RawRecord -> Option<Doc> {
    (r: RawRecord) => var d := ToDoc(source, r); if d.document == "" then None else Some(d)
  }

  /** The documents made from the first `n` sources, in file order. */
  function DocsOfSources(loaded: map<Source, seq<RawRecord>>, n: nat): seq<Doc>
    requires n <= |Sources|
  {
    if n == 0 then [] else DocsOfSources(loaded, n - 1) + NonEmptyDocs(Sources[n - 1], RowsOf(loaded, Sources[n - 1]))
  }

  /** The number of rows of the first `n` sources. */
  function RawCountOf(loaded: map<Source, seq<RawRecord>>, n: nat): nat
    requires n <= |Sources|
  {
    if n == 0 then 0 else RawCountOf(loaded, n - 1) + |RowsOf(loaded, Sources[n - 1])|
  }

  /** A document is kept exactly when a row of its source makes it and its text is not
      empty. */
  lemma NonEmptyDocsAreMadeFromRows(source: Source, rows: seq<RawRecord>, d: Doc)
    ensures d in NonEmptyDocs(source, rows) <==> d.document != "" && exists r :: r in rows && Makes(source, r, d)
  {
    FilterMapMembership(rows, Normalised(source), d);
  }

  /** `to_doc` turns `r` into `d`. */
  predicate Makes(source: Source, r: RawRecord, d: Doc) {
    ToDoc(source, r) == d
  }

  /** No document with empty text is ingested. */
  lemma {:induction false} LoadedDocsAreNonEmpty(loaded: map<Source, seq<RawRecord>>, n: nat)
    requires n <= |Sources|
    ensures forall d :: d in DocsOfSources(loaded, n) ==> d.document != ""
  {
    if n > 0 {
      LoadedDocsAreNonEmpty(loaded, n - 1);
      forall d | d in NonEmptyDocs(Sources[n - 1], RowsOf(loaded, Sources[n - 1])) ensures d.document != "" {
        NonEmptyDocsAreMadeFromRows(Sources[n - 1], RowsOf(loaded, Sources[n - 1]), d);
      }
    }
  }

  /** The load-and-normalise loop: the number of raw records read and the non-empty documents,
      file by file. */
  method LoadDocs(loaded: map<Source, seq<RawRecord>>) returns (rawCount: nat, docs: seq<Doc>)
    ensures rawCount == RawCountOf(loaded, |Sources|)
    ensures docs == DocsOfSources(loaded, |Sources|)
  {
    rawCount := 0;
    docs := [];
    for s := 0 to |Sources|
      invariant rawCount == RawCountOf(loaded, s)
      invariant docs == DocsOfSources(loaded, s)
    {
      var rows := RowsOf(loaded, Sources[s]);
      rawCount := rawCount + |rows|;
      var fromFile := NormaliseRows(Sources[s], rows);
      docs := docs + fromFile;
    }
  }

  /** The inner loop over one file's rows: each row becomes a document, and a document whose
      text is empty is skipped. */
  method NormaliseRows(source: Source, rows: seq<RawRecord>) returns (docs: seq<Doc>)
    ensures docs == NonEmptyDocs(source, rows)
  {
    docs := [];
    for i := 0 to |rows|
      invariant docs == NonEmptyDocs(source, rows[..i])
    {
      assert rows[..i + 1][..i] == rows[..i];
      var d := ToDoc(source, rows[i]);
      if d.document == "" {
        continue;
      }
      docs := docs + [d];
    }
    assert rows[..|rows|] == rows;
  }

  /** The ids of `docs`, in order. */
  function Ids(docs: seq<Doc>): (ids: seq<string>)
    ensures |ids| == |docs| && forall i :: 0 <= i < |docs| ==> ids[i] == docs[i].id
  {
    seq(|docs|, i requires 0 <= i < |docs| => docs[i].id)
  }

  /** The documents left by the dedup-by-id pass: a document is dropped when an earlier one
      has its id. */
  function UniqueById(docs: seq<Doc>): (unique: seq<Doc>)
    ensures |unique| <= |docs|
  {
    if docs == [] then []
    else
      var u := UniqueById(docs[..|docs| - 1]);
      var d := docs[|docs| - 1];
      if d.id in Ids(u) then u else u + [d]
  }

  /** The ids left are exactly those of `Dedup` on all the ids: every id once, in the order of
      first occurrence. */
  lemma {:induction false} UniqueIdsAreDedupedIds(docs: seq<Doc>)
    ensures Ids(UniqueById(docs)) == Dedup(Ids(docs))
  {
    if docs != [] {
      var n := |docs|;
      var p := docs[..n - 1];
      UniqueIdsAreDedupedIds(p);
      assert Ids(docs)[..n - 1] == Ids(p);
      var u := UniqueById(p);
      var d := docs[n - 1];
      if d.id !in Ids(u) {
        assert Ids(u + [d]) == Ids(u) + [d.id];
      }
    }
  }

  /** The document kept for an id is the first document with that id. */
  lemma {:induction false} UniqueKeepsFirstOccurrence(docs: seq<Doc>)
    ensures forall i :: 0 <= i < |UniqueById(docs)| ==>
      UniqueById(docs)[i].id in Ids(docs) && UniqueById(docs)[i] == docs[IndexOf(Ids(docs), UniqueById(docs)[i].id)]
  {
    if docs != [] {
      var n := |docs|;
      var p := docs[..n - 1];
      UniqueKeepsFirstOccurrence(p);
      UniqueIdsAreDedupedIds(p);
      var u := UniqueById(p);
      var d := docs[n - 1];
      assert Ids(docs)[..n - 1] == Ids(p);
      forall i | 0 <= i < |u|
        ensures u[i].id in Ids(docs) && u[i] == docs[IndexOf(Ids(docs), u[i].id)]
      {
        IndexOfPrefix(Ids(docs), n - 1, u[i].id);
      }
      if d.id !in Ids(u) {
        assert d.id !in Ids(p);
        assert Ids(docs)[n - 1] == d.id;
        assert IndexOf(Ids(docs), d.id) == n - 1;
      }
    }
  }

  /** The dedup-by-id loop, with the set of ids seen so far. */
  method DedupById(docs: seq<Doc>) returns (unique: seq<Doc>)
    ensures unique == UniqueById(docs)
  {
    var seen: set<string> := {};
    unique := [];
    for i := 0 to |docs|
      invariant unique == UniqueById(docs[..i])
      invariant forall id :: id in seen <==> id in Ids(unique)
    {
      assert docs[..i + 1][..i] == docs[..i];
      var d := docs[i];
      if d.id in seen {
        continue;
      }
      seen := seen + {d.id};
      assert Ids(unique + [d]) == Ids(unique) + [d.id];
      unique := unique + [d];
    }
    assert docs[..|docs|] == docs;
  }

  /** The insert loop: one `collection.add` per batch of `BatchSize`, and the running count of
      inserted documents. */
  method InsertInBatches(unique: seq<Doc>) returns (batches: seq<seq<Doc>>, inserted: nat)
    ensures Flatten(batches) == unique
    ensures forall i :: 0 <= i < |batches| ==> 0 < |batches[i]| <= BatchSize
    ensures forall i :: 0 <= i < |batches| - 1 ==> |batches[i]| == BatchSize
    ensures inserted == |unique|
  {
    var chunks := Batch(unique, BatchSize);
    batches := [];
    inserted := 0;
    for i := 0 to |chunks|
      invariant batches == chunks[..i]
      invariant inserted == |Flatten(batches)|
    {
      FlattenSnoc(batches, chunks[i]);
      batches := batches + [chunks[i]];
      inserted := inserted + |chunks[i]|;
    }
    assert chunks[..|chunks|] == chunks;
  }

  /** How a run of the script ends: stopped for want of an API key, a dry run that only
      counts, or the batches it sent and the inserted count. */
  datatype Run = MissingKey | DryRun(rawCount: nat, docCount: nat) | Ingested(batches: seq<seq<Doc>>, inserted: nat)

  /** `main`, with the loaded files and the presence of the API key as inputs. */
  method IngestAll(loaded: map<Source, seq<RawRecord>>, hasApiKey: bool, dryRun: bool) returns (run: Run)
    ensures !hasApiKey && !dryRun ==> run == MissingKey
    ensures dryRun ==> run == DryRun(RawCountOf(loaded, |Sources|), |DocsOfSources(loaded, |Sources|)|)
    ensures hasApiKey && !dryRun ==>
      && run.Ingested?
      && Flatten(run.batches) == UniqueById(DocsOfSources(loaded, |Sources|))
      && (forall i :: 0 <= i < |run.batches| ==> 0 < |run.batches[i]| <= BatchSize)
      && (forall i :: 0 <= i < |run.batches| - 1 ==> |run.batches[i]| == BatchSize)
      && run.inserted == |UniqueById(DocsOfSources(loaded, |Sources|))|
  {
    if !hasApiKey && !dryRun {
      return MissingKey;
    }
    var rawCount, docs := LoadDocs(loaded);
    if dryRun {
      return DryRun(rawCount, |docs|);
    }
    var unique := DedupById(docs);
    var batches, inserted := InsertInBatches(unique);
    run := Ingested(batches, inserted);
  }

  /** What is ingested has non-empty text and pairwise different ids, and every non-empty
      document's id is among them. */
  lemma IngestedDocsAreNonEmptyAndUnique(loaded: map<Source, seq<RawRecord>>)
    ensures var docs := DocsOfSources(loaded, |Sources|);
      && (forall d :: d in UniqueById(docs) ==> d.document != "")
      && Distinct(Ids(UniqueById(docs)))
      && (forall id :: id in Ids(docs) <==> id in Ids(UniqueById(docs)))
  {
    var docs := DocsOfSources(loaded, |Sources|);
    LoadedDocsAreNonEmpty(loaded, |Sources|);
    UniqueIdsAreDedupedIds(docs);
    UniqueKeepsFirstOccurrence(docs);
  }
}
