/**
 * The first compatibility cleaning pass: from each scraped compatibility document it keeps the
 * tokens that look like model numbers (deduplicated, at most 40), drops documents left without
 * one, rebuilds the text as a model summary followed by the start of the page text, and lists
 * the brands the page text mentions.
 */
module CleanCompatibility {
  import opened Wrappers
  import opened Text
  import opened Seqs

  /** Prefixes of tokens that are not model numbers. */
  const BadPrefixes: seq<string> := ["GTM", "HTTP", "HTTPS", "WWW", "MODEL", "QUESTION", "1-866"]

  /** The brands looked for in the page text, in this order. */
  const BrandHints: seq<string> := ["Whirlpool", "KitchenAid", "Maytag", "GE", "Frigidaire",
                                    "Samsung", "LG", "Bosch", "Amana", "Kenmore"]

  /** The most models a cleaned document keeps. */
  const ModelCap := 40

  /** The most characters of page text a cleaned document keeps. */
  const TextCap := 300

  predicate StartsWithAny(tok: string, prefixes: seq<string>) {
    exists p :: p in prefixes && StartsWith(tok, p)
  }

  /** `looks_like_model`: at least six characters, upper case (a capital letter and no small
      one), a digit and a letter, and none of the bad prefixes. */
  predicate LooksLikeModel(tok: string) {
    && |tok| >= 6
    && HasUpper(tok) && !HasLower(tok)
    && HasDigit(tok)
    && HasAlpha(tok)
    && !StartsWithAny(tok, BadPrefixes)
  }

  /** A scraped compatibility document; `None` for an absent field. */
  datatype RawDoc = RawDoc(id: string, partNumber: Option<string>, title: Option<string>, url: Option<string>,
                           models: seq<string>, text: Option<string>)

  /** A cleaned document; `brands` is absent when no brand was found. */
  datatype CleanDoc = CleanDoc(id: string, partNumber: string, title: string, url: string,
                               models: seq<string>, text: string, brands: Option<seq<string>>)

  /** The models that look like model numbers, in order. */
  function ModelLike(models: seq<string>): (r: seq<string>)
    ensures forall m :: m in r <==> m in models && LooksLikeModel(m)
  {
    if models == [] then []
    else
      var m := models[|models| - 1];
      assert models == models[..|models| - 1] + [m];
      ModelLike(models[..|models| - 1]) + (if LooksLikeModel(m) then [m] else [])
  }

  /** `list(dict.fromkeys(models))[:40]` of the model-like tokens. */
  function KeptModels(models: seq<string>): (r: seq<string>)
    ensures Distinct(r) && |r| <= ModelCap
    ensures |r| == if |Dedup(ModelLike(models))| < ModelCap then |Dedup(ModelLike(models))| else ModelCap
    ensures forall m :: m in r ==> m in models && LooksLikeModel(m)
  {
    var all := Dedup(ModelLike(models));
    var r := PyPrefix(all, ModelCap);
    assert forall i, j :: 0 <= i < j < |r| ==> r[i] == all[i] && r[j] == all[j];
    r
  }

  /** The kept models are the first 40 distinct model-like tokens: when there are no more than
      that, every model-like token is kept; none is lost otherwise but past the cap; and
      nothing is kept exactly when no token looks like a model. */
  lemma KeptModelsAreTheFirstModelLike(models: seq<string>)
    ensures |Dedup(ModelLike(models))| <= ModelCap ==>
      forall m :: m in models && LooksLikeModel(m) ==> m in KeptModels(models)
    ensures KeptModels(models) <= Dedup(ModelLike(models))
    ensures |Dedup(ModelLike(models))| > ModelCap ==> |KeptModels(models)| == ModelCap
    ensures KeptModels(models) == [] <==> forall m :: m in models ==> !LooksLikeModel(m)
  {
    var all := Dedup(ModelLike(models));
    if all != [] {
      assert all[0] in KeptModels(models);
    }
  }

  /** The brand hints the text mentions, compared case-insensitively, in hint order. */
  function BrandsFound(hints: seq<string>, text: string): (r: seq<string>)
    ensures forall b :: b in r <==> b in hints && Contains(Lower(text), Lower(b))
    ensures |r| <= |hints|
  {
    if hints == [] then []
    else
      var b := hints[|hints| - 1];
      assert hints == hints[..|hints| - 1] + [b];
      BrandsFound(hints[..|hints| - 1], text) + (if Contains(Lower(text), Lower(b)) then [b] else [])
  }

  /** The found brands keep the order of the hints. */
  lemma {:induction false} BrandsKeepHintOrder(hints: seq<string>, text: string)
    requires Distinct(hints)
    ensures forall i, j :: 0 <= i < j < |BrandsFound(hints, text)| ==>
      IndexOf(hints, BrandsFound(hints, text)[i]) < IndexOf(hints, BrandsFound(hints, text)[j])
  {
    if hints != [] {
      var n := |hints|;
      var p := hints[..n - 1];
      BrandsKeepHintOrder(p, text);
      forall y | y in p ensures IndexOf(hints, y) == IndexOf(p, y) && IndexOf(p, y) < n - 1 {
        IndexOfPrefix(hints, n - 1, y);
      }
      assert hints[n - 1] !in p;
      assert IndexOf(hints, hints[n - 1]) == n - 1;
    }
  }

  /** `f"Compatible models: {', '.join(models)}."` */
  function Summary(models: seq<string>): string {
    "Compatible models: " + Join(models, ", ") + "."
  }

  /** One pass of the loop body: the cleaned document, or `None` when it is skipped. The page
      text after HTML removal is an input, `textClean`. */
  function CleanDocOf(doc: RawDoc, textClean: string): (r: Option<CleanDoc>)
    ensures r.None? <==> KeptModels(doc.models) == []
    ensures r.Some? ==> r.value.models == KeptModels(doc.models)
    ensures r.Some? ==>
      && r.value.id == doc.id && r.value.partNumber == doc.partNumber.GetOr("")
      && r.value.title == doc.title.GetOr("") && r.value.url == doc.url.GetOr("")
    ensures r.Some? ==> (r.value.brands.Some? <==> BrandsFound(BrandHints, textClean) != [])
    ensures r.Some? && r.value.brands.Some? ==> r.value.brands.value == BrandsFound(BrandHints, textClean)
  {
    var models := KeptModels(doc.models);
    if models == [] then None
    else
      var brands := BrandsFound(BrandHints, textClean);
      Some(CleanDoc(doc.id, doc.partNumber.GetOr(""), doc.title.GetOr(""), doc.url.GetOr(""), models,
                    Summary(models) + " " + Prefix(textClean, TextCap),
                    if brands != [] then Some(brands) else None))
  }

  /** The text is the model summary, a space, and at most the first 300 characters of the
      cleaned page text. */
  lemma CleanTextIsSummaryAndPageStart(doc: RawDoc, textClean: string)
    requires CleanDocOf(doc, textClean).Some?
    ensures var text := CleanDocOf(doc, textClean).value.text;
      var head := Summary(KeptModels(doc.models)) + " ";
      && StartsWith(text, "Compatible models: ")
      && StartsWith(text, head)
      && text[|head|..] <= textClean
      && |text| - |head| == (if |textClean| < TextCap then |textClean| else TextCap)
  {
    var text := CleanDocOf(doc, textClean).value.text;
    var head := Summary(KeptModels(doc.models)) + " ";
    assert text == head + Prefix(textClean, TextCap);
    assert text[..|head|] == head;
    assert text[|head|..] == Prefix(textClean, TextCap);
    assert head[..19] == "Compatible models: ";
  }

  /** The loop body on one raw document, with HTML removal as the input `stripHtml`. */
  function Cleaner(stripHtml: string -> string): RawDoc -> Option<CleanDoc> {
    (d: RawDoc) => CleanDocOf(d, stripHtml(d.text.GetOr("")))
  }

  /** The documents the pass keeps, in input order. */
  function CleanDocs(docs: seq<RawDoc>, stripHtml: string -> string): (r: seq<CleanDoc>)
    ensures |r| <= |docs|
  {
    FilterMap(docs, Cleaner(stripHtml))
  }

  /** A document is kept exactly when cleaning some input document gives it. */
  lemma CleanDocsComeFromInput(docs: seq<RawDoc>, stripHtml: string -> string, c: CleanDoc)
    ensures c in CleanDocs(docs, stripHtml) <==> exists d :: d in docs && Yields(d, stripHtml, c)
  {
    FilterMapMembership(docs, Cleaner(stripHtml), c);
  }

  /** Cleaning `d` gives `c`. */
  predicate Yields(d: RawDoc, stripHtml: string -> string, c: CleanDoc) {
    CleanDocOf(d, stripHtml(d.text.GetOr(""))) == Some(c)
  }

  /** The cleaning loop: one pass per raw document, skipping those left without models; HTML
      removal is the input `stripHtml`. */
  method CleanAll(rawDocs: seq<RawDoc>, stripHtml: string -> string) returns (cleanDocs: seq<CleanDoc>)
    ensures cleanDocs == CleanDocs(rawDocs, stripHtml)
  {
    cleanDocs := [];
    for i := 0 to |rawDocs|
      invariant cleanDocs == CleanDocs(rawDocs[..i], stripHtml)
    {
      assert rawDocs[..i + 1][..i] == rawDocs[..i];
      var doc := rawDocs[i];
      var models := KeptModels(doc.models);
      if models == [] {
        assert CleanDocOf(doc, stripHtml(doc.text.GetOr(""))) == None;
        assert Cleaner(stripHtml)(doc) == None;
        continue;
      }
      var textClean := stripHtml(doc.text.GetOr(""));
      var brands := BrandsFound(BrandHints, textClean);
      var newDoc := CleanDoc(doc.id, doc.partNumber.GetOr(""), doc.title.GetOr(""), doc.url.GetOr(""), models,
                             Summary(models) + " " + Prefix(textClean, TextCap), None);
      if brands != [] {
        newDoc := newDoc.(brands := Some(brands));
      }
      assert Cleaner(stripHtml)(doc) == Some(newDoc);
      cleanDocs := cleanDocs + [newDoc];
    }
    assert rawDocs[..|rawDocs|] == rawDocs;
  }
}
