/**
 * The final compatibility cleanup: each record's model list becomes the sorted set of the
 * models that match the model pattern, and its text is shortened; the records are updated in
 * place and kept in order.
 */
module CleanupCompatibility {
  import opened Text
  import opened Order

  /** A character the model pattern allows: a capital letter, a digit or a hyphen. */
  predicate IsModelChar(c: char) {
    IsUpper(c) || IsDigit(c) || c == '-'
  }

  /** The whole string matches the model pattern: at least five allowed characters, among them
      a capital letter and a digit. */
  predicate ModelOk(s: string) {
    && |s| >= 5
    && (forall i :: 0 <= i < |s| ==> IsModelChar(s[i]))
    && HasUpper(s)
    && HasDigit(s)
  }

  /** `MODEL_OK.match(s)` as written: anchored at the start only, with `$`, which also matches
      just before a final line break, so a model followed by one `"\n"` passes too. */
  predicate ModelMatchAsWritten(s: string) {
    ModelOk(s) || (|s| >= 1 && s[|s| - 1] == '\n' && ModelOk(s[..|s| - 1]))
  }

  /** The as-written match accepts a string that is not made of model characters only. */
  lemma ModelMatchAsWrittenAcceptsLineBreak()
    ensures ModelMatchAsWritten("ABC12\n") && !ModelOk("ABC12\n")
  {
    var s := "ABC12\n";
    assert s[..|s| - 1] == "ABC12";
    assert IsUpper("ABC12"[0]) && IsDigit("ABC12"[3]);
    assert !IsModelChar(s[5]);
  }

  /** The as-written match accepts exactly the full matches and those followed by one line
      break, so the full match is the stricter of the two. */
  lemma ModelOkIsStricter(s: string)
    ensures ModelOk(s) ==> ModelMatchAsWritten(s)
    ensures ModelMatchAsWritten(s) && '\n' !in s ==> ModelOk(s)
  {
  }

  /** The cleaned model list: the models of `models` that match, sorted, each once. */
  function CleanedModels(models: seq<string>): (r: seq<string>)
    ensures StrictlySorted(r)
    ensures forall m :: m in r <==> m in models && ModelOk(m)
  {
    var keep := set m | m in models && ModelOk(m);
    SortedOf(keep)
  }

  /** The model list `clean_rec` produces as written, with the as-written match. */
  function CleanedModelsAsWritten(models: seq<string>): (r: seq<string>)
    ensures StrictlySorted(r)
    ensures forall m :: m in r <==> m in models && ModelMatchAsWritten(m)
  {
    var keep := set m | m in models && ModelMatchAsWritten(m);
    SortedOf(keep)
  }

  /** As written, a model followed by a line break survives the cleanup, line break and all;
      with the full match it is dropped. */
  lemma LineBreakSurvivesAsWritten()
    ensures "ABC12\n" in CleanedModelsAsWritten(["ABC12\n"])
    ensures CleanedModels(["ABC12\n"]) == []
  {
    ModelMatchAsWrittenAcceptsLineBreak();
  }

  /** Every cleaned model is at least five characters of `A-Z`, `0-9` and `-` with a capital
      letter and a digit, no model is listed twice, and cleaning again changes nothing. */
  lemma CleanedModelsAreWellFormed(models: seq<string>)
    ensures forall m :: m in CleanedModels(models) ==>
      && |m| >= 5
      && (forall i :: 0 <= i < |m| ==> 'A' <= m[i] <= 'Z' || '0' <= m[i] <= '9' || m[i] == '-')
      && HasUpper(m) && HasDigit(m)
    ensures forall i, j :: 0 <= i < j < |CleanedModels(models)| ==> CleanedModels(models)[i] != CleanedModels(models)[j]
    ensures CleanedModels(CleanedModels(models)) == CleanedModels(models)
  {
    var r := CleanedModels(models);
    forall i, j | 0 <= i < j < |r| ensures r[i] != r[j] {
      StrictlySortedPairwise(r, i, j);
    }
    StrictlySortedUnique(CleanedModels(r), r);
  }

  /** A compatibility record: its model list, its text, and the other keys, which the cleanup
      does not touch. */
  class CompatibilityRecord {
    var models: seq<string>
    var text: string
    var others: map<string, string>

    constructor (models: seq<string>, text: string, others: map<string, string>)
      ensures this.models == models && this.text == text && this.others == others
    {
      this.models := models;
      this.text := text;
      this.others := others;
    }

    /** `clean_rec`, with the full match of the model pattern: the models are replaced by the
        cleaned list, the text by its shortened form (`textwrap.shorten`, an input here), and
        the record itself is returned. As written, the pattern also keeps a model followed by
        one line break (`CleanedModelsAsWritten`); this method drops it. */
    method CleanRec(shorten: string -> string) returns (r: CompatibilityRecord)
      modifies this
      ensures r == this
      ensures models == CleanedModels(old(models))
      ensures text == shorten(old(text))
      ensures others == old(others)
    {
      var keep := set m | m in models && ModelOk(m);
      models := SortedOf(keep);
      text := shorten(text);
      r := this;
    }
  }

  /** `docs = [clean_rec(d) for d in ...]`: the same records in the same order, each cleaned
      once with the full match of the model pattern. The records come from parsing a JSON
      list, so no record appears twice. */
  method CleanupAll(records: seq<CompatibilityRecord>, shorten: string -> string) returns (docs: seq<CompatibilityRecord>)
    requires forall i, j :: 0 <= i < j < |records| ==> records[i] != records[j]
    modifies set r | r in records
    ensures docs == records
    ensures forall i :: 0 <= i < |records| ==>
      && records[i].models == CleanedModels(old(records[i].models))
      && records[i].text == shorten(old(records[i].text))
      && records[i].others == old(records[i].others)
  {
    docs := [];
    for i := 0 to |records|
      invariant docs == records[..i]
      invariant forall j :: 0 <= j < i ==>
        && records[j].models == CleanedModels(old(records[j].models))
        && records[j].text == shorten(old(records[j].text))
        && records[j].others == old(records[j].others)
      invariant forall j :: i <= j < |records| ==>
        && records[j].models == old(records[j].models)
        && records[j].text == old(records[j].text)
        && records[j].others == old(records[j].others)
    {
      var d := records[i].CleanRec(shorten);
      docs := docs + [d];
    }
  }
}
