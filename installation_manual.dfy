/**
 * The installation-manual builder: it turns the scraped installation records into a map from
 * part number to manual entry, skipping records without a part number or with too little
 * text, and counting what it kept and what it skipped.
 */
module InstallationManual {
  import opened Wrappers
  import opened Text

  /** A scraped installation record: each field the builder reads, `None` when the record
      lacks it. */
  datatype Record = Record(partNumber: Option<string>, title: Option<string>, text: Option<string>,
                           url: Option<string>, id: Option<string>)

  /** `record.get(name, "")` */
  function Field(value: Option<string>): string {
    value.GetOr("")
  }

  /** One manual entry. */
  datatype ManualEntry = ManualEntry(partNumber: string, title: string, installationText: string, url: string, id: string)

  type Manual = map<string, ManualEntry>

  /** The shortest installation text that is kept. */
  const MinTextLength := 20

  function KeyOf(r: Record): string {
    Strip(Field(r.partNumber))
  }

  /** A record is kept when its stripped part number is non-empty and its stripped text has at
      least `MinTextLength` characters. */
  predicate Kept(r: Record) {
    KeyOf(r) != "" && |Strip(Field(r.text))| >= MinTextLength
  }

  function EntryOf(r: Record): ManualEntry {
    ManualEntry(KeyOf(r), Strip(Field(r.title)), Strip(Field(r.text)), Strip(Field(r.url)), Strip(Field(r.id)))
  }

  /** The manual the loop builds from `records`: kept records in order, a later one
      overwriting an earlier one with the same part number. */
  function ManualOf(records: seq<Record>): Manual {
    if records == [] then map[]
    else
      var m := ManualOf(records[..|records| - 1]);
      var r := records[|records| - 1];
      if Kept(r) then m[KeyOf(r) := EntryOf(r)] else m
  }

  /** The number of kept records. */
  function KeptCount(records: seq<Record>): (n: nat)
    ensures n <= |records|
  {
    if records == [] then 0
    else KeptCount(records[..|records| - 1]) + (if Kept(records[|records| - 1]) then 1 else 0)
  }

  /** `build_installation_manual`: the manual, the two counters, and the returned size. */
  method BuildInstallationManual(records: seq<Record>) returns (manual: Manual, processed: nat, skipped: nat, count: nat)
    ensures manual == ManualOf(records)
    ensures processed == KeptCount(records)
    ensures processed + skipped == |records|
    ensures count == |manual.Keys| && count <= processed
  {
    manual := map[];
    processed, skipped := 0, 0;
    for i := 0 to |records|
      invariant manual == ManualOf(records[..i])
      invariant processed == KeptCount(records[..i])
      invariant processed + skipped == i
      invariant |manual.Keys| <= processed
    {
      ManualStep(records, i);
      var record := records[i];
      var partNumber := Strip(Field(record.partNumber));
      var text := Strip(Field(record.text));
      if partNumber == "" || |text| < 20 {
        skipped := skipped + 1;
        continue;
      }
      manual := manual[partNumber := ManualEntry(partNumber, Strip(Field(record.title)), text,
                                                 Strip(Field(record.url)), Strip(Field(record.id)))];
      processed := processed + 1;
    }
    assert records[..|records|] == records;
    count := |manual.Keys|;
  }

  /** One more record: the manual gains or overwrites its entry when it is kept, and gains at
      most one key. */
  lemma ManualStep(records: seq<Record>, i: nat)
    requires i < |records|
    ensures var m := ManualOf(records[..i]);
      && ManualOf(records[..i + 1]) == (if Kept(records[i]) then m[KeyOf(records[i]) := EntryOf(records[i])] else m)
      && KeptCount(records[..i + 1]) == KeptCount(records[..i]) + (if Kept(records[i]) then 1 else 0)
      && |ManualOf(records[..i + 1]).Keys| <= |m.Keys| + (if Kept(records[i]) then 1 else 0)
  {
    assert records[..i + 1][..i] == records[..i];
    var m := ManualOf(records[..i]);
    if Kept(records[i]) {
      assert m.Keys + {KeyOf(records[i])} == m[KeyOf(records[i]) := EntryOf(records[i])].Keys;
    }
  }

  /** Every entry is stored under its own part number and holds at least `MinTextLength` characters of stripped text. */
  lemma {:induction false} ManualEntriesAreValid(records: seq<Record>)
    ensures forall key :: key in ManualOf(records) ==>
      && ManualOf(records)[key].partNumber == key
      && |ManualOf(records)[key].installationText| >= MinTextLength
  {
    if records != [] {
      ManualEntriesAreValid(records[..|records| - 1]);
    }
  }

  /** A part number is a key of the manual exactly when some kept record has it. */
  lemma {:induction false} ManualKeysAreKeptParts(records: seq<Record>, key: string)
    ensures key in ManualOf(records) <==> exists i :: 0 <= i < |records| && KeptWithKey(records[i], key)
  {
    if records != [] {
      var n := |records|;
      var p := records[..n - 1];
      var last := records[n - 1];
      ManualKeysAreKeptParts(p, key);
      assert key in ManualOf(records) <==> key in ManualOf(p) || KeptWithKey(last, key);
      if i :| 0 <= i < n - 1 && KeptWithKey(p[i], key) {
        assert KeptWithKey(records[i], key);
      }
      if i :| 0 <= i < n && KeptWithKey(records[i], key) {
        if i < n - 1 {
          assert KeptWithKey(p[i], key);
        }
      }
    }
  }

  /** Every key is a non-empty part number without white space at either end. */
  lemma {:induction false} ManualKeysAreStripped(records: seq<Record>, key: string)
    requires key in ManualOf(records)
    ensures key != "" && !IsSpace(key[0]) && !IsSpace(key[|key| - 1])
  {
    var last := records[|records| - 1];
    if Kept(last) && key == KeyOf(last) {
      assert key == Strip(Field(last.partNumber));
    } else {
      ManualKeysAreStripped(records[..|records| - 1], key);
    }
  }

  predicate KeptWithKey(r: Record, key: string) {
    Kept(r) && KeyOf(r) == key
  }

  /** Last one wins: the entry for a part number comes from the last kept record that has it. */
  lemma {:induction false} LastRecordWins(records: seq<Record>, i: int)
    requires 0 <= i < |records| && Kept(records[i])
    requires forall j :: i < j < |records| ==> !KeptWithKey(records[j], KeyOf(records[i]))
    ensures KeyOf(records[i]) in ManualOf(records)
    ensures ManualOf(records)[KeyOf(records[i])] == EntryOf(records[i])
  {
    var n := |records|;
    var p := records[..n - 1];
    var key := KeyOf(records[i]);
    if i < n - 1 {
      assert p[i] == records[i];
      forall j | i < j < n - 1 ensures !KeptWithKey(p[j], key) {
        assert p[j] == records[j];
      }
      LastRecordWins(p, i);
      var m := ManualOf(p);
      var last := records[n - 1];
      assert !KeptWithKey(last, key);
      if Kept(last) {
        assert KeyOf(last) != key;
        assert ManualOf(records) == m[KeyOf(last) := EntryOf(last)];
      } else {
        assert ManualOf(records) == m;
      }
    }
  }
}
