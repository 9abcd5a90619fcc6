/**
 * The part/model index builder: from the scraped compatibility rows it builds the two maps
 * part number -> compatible models and model -> parts, after normalising every model token
 * and dropping those that do not look like model numbers. Both maps list their values sorted
 * and without repeats, and each is the mirror image of the other.
 */
module PartMapping {
  import opened Wrappers
  import opened Text
  import opened Order
  import opened Seqs

  /** An item of a row's `models` list: a string, or any other JSON value. */
  datatype JsonItem = JStr(s: string) | JOther

  /** A scraped row: its `part_number` (`None` when missing or null) and its `models` list
      (empty when missing or null). */
  datatype Row = Row(partNumber: Option<string>, models: seq<JsonItem>)

  /** The two maps the builder writes. */
  datatype PartMaps = PartMaps(partsToModels: map<string, seq<string>>, modelToParts: map<string, seq<string>>)

  /** A (part, model) compatibility pair. */
  type Pair = (string, string)

  const EnDash: char := '–'
  const EmDash: char := '—'

  function DashToHyphen(c: char): char {
    if c == EnDash || c == EmDash then '-' else c
  }

  /** `norm_model`: strip, upper-case, and write en and em dashes as `-`. */
  function NormModel(s: string): (r: string)
    ensures |r| <= |s|
    ensures EnDash !in r && EmDash !in r
    ensures !HasLower(r)
    ensures r == [] || (!IsSpace(r[0]) && !IsSpace(r[|r| - 1]))
    ensures |r| == |Strip(s)| && forall i :: 0 <= i < |r| ==> r[i] == DashToHyphen(ToUpper(Strip(s)[i]))
  {
    var u := Upper(Strip(s));
    seq(|u|, i requires 0 <= i < |u| => DashToHyphen(u[i]))
  }

  /** Normalising twice is normalising once. */
  lemma NormModelIdempotent(s: string)
    ensures NormModel(NormModel(s)) == NormModel(s)
  {
    var r := NormModel(s);
    StripOfTrimmed(r);
    assert Upper(r) == r;
  }

  /** `MODEL_OK.fullmatch`: at least five characters, none of them a line break, with a letter
      and a digit among them. */
  predicate ModelOk(s: string) {
    |s| >= 5 && '\n' !in s && HasAlpha(s) && HasDigit(s)
  }

  /** The key of a row: its part number, stripped and upper-cased (`""` when missing). */
  function PartKey(row: Row): (p: string)
    ensures !HasLower(p)
    ensures p == [] || (!IsSpace(p[0]) && !IsSpace(p[|p| - 1]))
    ensures var t := Strip(row.partNumber.GetOr(""));
      |p| == |t| && forall i :: 0 <= i < |p| ==> p[i] == ToUpper(t[i])
  {
    Upper(Strip(row.partNumber.GetOr("")))
  }

  /** One item of the model loop: its normal form, when it is a string whose normal form
      passes `ModelOk`. */
  function CleanedItem(item: JsonItem): Option<string> {
    match item
    case JOther => None
    case JStr(s) => if ModelOk(NormModel(s)) then Some(NormModel(s)) else None
  }

  /** `cleaned`: the normalised string models that pass `ModelOk`, in order. */
  function CleanedModels(models: seq<JsonItem>): (r: seq<string>)
    ensures |r| <= |models|
  {
    FilterMap(models, CleanedItem)
  }

  /** A model is cleaned exactly when it passes `ModelOk` and is the normal form of a string
      of the list; other JSON values are skipped. */
  lemma CleanedModelsMembership(models: seq<JsonItem>, x: string)
    ensures x in CleanedModels(models) <==> ModelOk(x) && exists s :: JStr(s) in models && NormModel(s) == x
  {
    FilterMapMembership(models, CleanedItem, x);
    if x in CleanedModels(models) {
      var item :| item in models && CleanedItem(item) == Some(x);
      assert JStr(item.s) in models;
    }
    if s :| JStr(s) in models && NormModel(s) == x && ModelOk(x) {
      assert CleanedItem(JStr(s)) == Some(x);
    }
  }

  /** The pairs a row contributes. */
  function RowPairs(row: Row): set<Pair> {
    if PartKey(row) == "" then {}
    else PairsWith(PartKey(row), set m | m in CleanedModels(row.models))
  }

  /** All pairs of the rows. */
  function PairsOf(rows: seq<Row>): set<Pair> {
    if rows == [] then {} else PairsOf(rows[..|rows| - 1]) + RowPairs(rows[|rows| - 1])
  }

  /** A set-valued map that holds exactly `pairs`, keyed by their first component, with no
      empty value. */
  ghost predicate Groups(g: map<string, set<string>>, pairs: set<Pair>) {
    && (forall k :: k in g ==> g[k] != {})
    && (forall k, x :: (k, x) in pairs <==> k in g && x in g[k])
  }

  /** `pairs` with each pair turned round. */
  function Swapped(pairs: set<Pair>): set<Pair> {
    set q | q in pairs :: (q.1, q.0)
  }

  /** Both set-valued maps: parts to models, and models to parts. */
  ghost predicate BothWays(p2m: map<string, set<string>>, m2p: map<string, set<string>>, pairs: set<Pair>) {
    Groups(p2m, pairs) && Groups(m2p, Swapped(pairs))
  }

  /** The written maps hold exactly `pairs`, each way round, every list non-empty and strictly
      ascending. */
  ghost predicate Describes(maps: PartMaps, pairs: set<Pair>) {
    && (forall p :: p in maps.partsToModels ==>
          maps.partsToModels[p] != [] && StrictlySorted(maps.partsToModels[p]))
    && (forall m :: m in maps.modelToParts ==>
          maps.modelToParts[m] != [] && StrictlySorted(maps.modelToParts[m]))
    && (forall p, m :: (p, m) in pairs <==> p in maps.partsToModels && m in maps.partsToModels[p])
    && (forall p, m :: (p, m) in pairs <==> m in maps.modelToParts && p in maps.modelToParts[m])
  }

  function Get(m: map<string, set<string>>, k: string): set<string> {
    if k in m then m[k] else {}
  }

  /** `main`: the two maps, and what is written (nothing on a dry run). */
  method BuildPartMapping(rows: seq<Row>, dryRun: bool) returns (maps: PartMaps, written: Option<PartMaps>)
    ensures Describes(maps, PairsOf(rows))
    ensures written == if dryRun then None else Some(maps)
  {
    var p2m: map<string, set<string>> := map[];
    var m2p: map<string, set<string>> := map[];
    for i := 0 to |rows|
      invariant BothWays(p2m, m2p, PairsOf(rows[..i]))
    {
      assert rows[..i + 1][..i] == rows[..i];
      assert PairsOf(rows[..i + 1]) == PairsOf(rows[..i]) + RowPairs(rows[i]);
      var row := rows[i];
      var part := Upper(Strip(row.partNumber.GetOr("")));
      if part == "" {
        continue;
      }
      var cleaned := CleanModels(row.models);
      var distinct := set m | m in cleaned;
      p2m, m2p := AddPairs(p2m, m2p, part, distinct, PairsOf(rows[..i]));
    }
    assert rows[..|rows|] == rows;
    var sortedP2m := SortEachValue(p2m);
    var sortedM2p := SortEachValue(m2p);
    maps := PartMaps(sortedP2m, sortedM2p);
    DescribesByPairs(p2m, m2p, PairsOf(rows), maps);
    if dryRun {
      written := None;
    } else {
      written := Some(maps);
    }
  }

  /** The `for m in set(cleaned)` loop: record every (part, model) pair both ways. */
  method AddPairs(p2m: map<string, set<string>>, m2p: map<string, set<string>>, part: string,
                  models: set<string>, ghost pairs: set<Pair>)
    returns (p2m': map<string, set<string>>, m2p': map<string, set<string>>)
    requires BothWays(p2m, m2p, pairs)
    ensures BothWays(p2m', m2p', pairs + PairsWith(part, models))
  {
    p2m', m2p' := p2m, m2p;
    var todo, done := models, {};
    while todo != {}
      invariant done + todo == models && done !! todo
      invariant BothWays(p2m', m2p', pairs + PairsWith(part, done))
      decreases todo
    {
      var m :| m in todo;
      GroupsAddPair(p2m', m2p', pairs, part, done, m);
      p2m' := p2m'[part := Get(p2m', part) + {m}];
      m2p' := m2p'[m := Get(m2p', m) + {part}];
      todo, done := todo - {m}, done + {m};
    }
    assert done == models;
  }

  function PairsWith(part: string, models: set<string>): set<Pair> {
    set m | m in models :: (part, m)
  }

  /** Adding one pair to a map keeps it describing the pairs. */
  lemma GroupsAdd(g: map<string, set<string>>, pairs: set<Pair>, k: string, x: string)
    requires Groups(g, pairs)
    ensures Groups(g[k := Get(g, k) + {x}], pairs + {(k, x)})
  {
  }

  lemma SwappedAdd(pairs: set<Pair>, p: string, m: string)
    ensures Swapped(pairs + {(p, m)}) == Swapped(pairs) + {(m, p)}
  {
  }

  /** Recording one more model of `part` both ways keeps the maps describing the pairs. */
  lemma GroupsAddPair(p2m: map<string, set<string>>, m2p: map<string, set<string>>, pairs: set<Pair>,
                      part: string, done: set<string>, m: string)
    requires BothWays(p2m, m2p, pairs + PairsWith(part, done))
    ensures BothWays(p2m[part := Get(p2m, part) + {m}], m2p[m := Get(m2p, m) + {part}],
                     pairs + PairsWith(part, done + {m}))
  {
    var before := pairs + PairsWith(part, done);
    assert pairs + PairsWith(part, done + {m}) == before + {(part, m)};
    GroupsAdd(p2m, before, part, m);
    GroupsAdd(m2p, Swapped(before), m, part);
    SwappedAdd(before, part, m);
  }

  /** `{k: sorted(v) for k, v in g.items()}` */
  function SortValues(g: map<string, set<string>>): (out: map<string, seq<string>>)
    ensures out.Keys == g.Keys
  {
    map k | k in g :: SortedOf(g[k])
  }

  /** Sorting the values of a map keeps its (key, value) pairs. */
  lemma SortValuesKeepsPairs(g: map<string, set<string>>)
    ensures forall k, x :: (k in g && x in g[k]) <==> (k in SortValues(g) && x in SortValues(g)[k])
  {
    forall k, x | k in g ensures x in g[k] <==> x in SortValues(g)[k] {
      assert SortValues(g)[k] == SortedOf(g[k]);
    }
  }

  /** Sorting the values of a map without empty values gives non-empty ascending lists. */
  lemma SortValuesAreSorted(g: map<string, set<string>>)
    requires forall k :: k in g ==> g[k] != {}
    ensures forall k :: k in SortValues(g) ==> SortValues(g)[k] != [] && StrictlySorted(SortValues(g)[k])
  {
    forall k | k in SortValues(g) ensures SortValues(g)[k] != [] && StrictlySorted(SortValues(g)[k]) {
      assert SortValues(g)[k] == SortedOf(g[k]);
      var y :| y in g[k];
      assert y in SortedOf(g[k]);
    }
  }

  /** The conversion of one set-valued map to sorted lists, with what it keeps. */
  method SortEachValue(g: map<string, set<string>>) returns (out: map<string, seq<string>>)
    requires forall k :: k in g ==> g[k] != {}
    ensures forall k, x :: (k in g && x in g[k]) <==> (k in out && x in out[k])
    ensures forall k :: k in out ==> out[k] != [] && StrictlySorted(out[k])
  {
    out := SortValues(g);
    SortValuesKeepsPairs(g);
    SortValuesAreSorted(g);
  }

  /** Maps of lists holding the same pairs as set-valued maps that describe `pairs`, with
      non-empty ascending lists, describe `pairs`. */
  lemma DescribesByPairs(p2m: map<string, set<string>>, m2p: map<string, set<string>>, pairs: set<Pair>,
                         maps: PartMaps)
    requires BothWays(p2m, m2p, pairs)
    requires forall k, x :: (k in p2m && x in p2m[k]) <==> (k in maps.partsToModels && x in maps.partsToModels[k])
    requires forall k, x :: (k in m2p && x in m2p[k]) <==> (k in maps.modelToParts && x in maps.modelToParts[k])
    requires forall k :: k in maps.partsToModels ==> maps.partsToModels[k] != [] && StrictlySorted(maps.partsToModels[k])
    requires forall k :: k in maps.modelToParts ==> maps.modelToParts[k] != [] && StrictlySorted(maps.modelToParts[k])
    ensures Describes(maps, pairs)
  {
    forall p, m ensures (p, m) in pairs <==> (m, p) in Swapped(pairs) {
      if (m, p) in Swapped(pairs) {
        var q :| q in pairs && (q.1, q.0) == (m, p);
      }
    }
  }

  /** The model loop of one row: `cleaned`. */
  method CleanModels(models: seq<JsonItem>) returns (cleaned: seq<string>)
    ensures cleaned == CleanedModels(models)
  {
    cleaned := [];
    for j := 0 to |models|
      invariant cleaned == CleanedModels(models[..j])
    {
      assert models[..j + 1][..j] == models[..j];
      match models[j]
      case JOther =>
      case JStr(m) =>
        var mm := NormModel(m);
        if ModelOk(mm) {
          cleaned := cleaned + [mm];
        }
    }
    assert models[..|models|] == models;
  }

  /** The written maps are determined by the pairs: `Describes` admits one pair of maps. */
  lemma DescribesIsUnique(a: PartMaps, b: PartMaps, pairs: set<Pair>)
    requires Describes(a, pairs) && Describes(b, pairs)
    ensures a == b
  {
    SameListMaps(a.partsToModels, b.partsToModels);
    SameListMaps(a.modelToParts, b.modelToParts);
  }

  /** Two maps with non-empty strictly ascending lists and the same (key, element) pairs are
      equal. */
  lemma SameListMaps(a: map<string, seq<string>>, b: map<string, seq<string>>)
    requires forall k :: k in a ==> a[k] != [] && StrictlySorted(a[k])
    requires forall k :: k in b ==> b[k] != [] && StrictlySorted(b[k])
    requires forall k, x :: (k in a && x in a[k]) <==> (k in b && x in b[k])
    ensures a == b
  {
    forall k | k in a ensures k in b && a[k] == b[k] {
      assert a[k][0] in a[k];
      StrictlySortedUnique(a[k], b[k]);
    }
    forall k | k in b ensures k in a {
      assert b[k][0] in b[k];
    }
  }

  /** Each map is the mirror image of the other. */
  lemma MapsAreSymmetric(maps: PartMaps, pairs: set<Pair>, p: string, m: string)
    requires Describes(maps, pairs)
    ensures (p in maps.partsToModels && m in maps.partsToModels[p]) <==> (m in maps.modelToParts && p in maps.modelToParts[m])
  {
    assert (p, m) in pairs <==> p in maps.partsToModels && m in maps.partsToModels[p];
  }

  /** Row `row` has key `p` and lists model `m`. */
  predicate RowHasPair(row: Row, p: string, m: string) {
    p != "" && PartKey(row) == p && m in CleanedModels(row.models)
  }

  /** A pair is in the maps exactly when some row with that (non-empty) key lists a string
      whose normal form is that model and passes `ModelOk`; several rows for one part thus
      contribute the union of their models. */
  lemma {:induction false} PairsComeFromRows(rows: seq<Row>, p: string, m: string)
    ensures (p, m) in PairsOf(rows) <==> exists i :: 0 <= i < |rows| && RowHasPair(rows[i], p, m)
  {
    if rows != [] {
      var n := |rows|;
      var q := rows[..n - 1];
      PairsComeFromRows(q, p, m);
      assert (p, m) in RowPairs(rows[n - 1]) <==> RowHasPair(rows[n - 1], p, m);
      if i :| 0 <= i < n - 1 && RowHasPair(q[i], p, m) {
        assert rows[i] == q[i];
      }
      if i :| 0 <= i < n && RowHasPair(rows[i], p, m) {
        if i < n - 1 {
          assert rows[i] == q[i];
        }
      }
    }
  }

  /** Every part key is non-empty and upper-case, and every model passes `ModelOk` and is in
      normal form. */
  lemma {:induction false} PairsAreClean(rows: seq<Row>, p: string, m: string)
    requires (p, m) in PairsOf(rows)
    ensures p != "" && !HasLower(p)
    ensures ModelOk(m) && NormModel(m) == m
  {
    PairsComeFromRows(rows, p, m);
    var i :| 0 <= i < |rows| && RowHasPair(rows[i], p, m);
    CleanedModelsMembership(rows[i].models, m);
    var s :| JStr(s) in rows[i].models && NormModel(s) == m;
    NormModelIdempotent(s);
  }
}
