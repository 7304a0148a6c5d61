/** `save_urls_to_csv`: the results file that maps each product SKU to the JSON list
    of its image URLs. The file is modelled record by record (a record is the list of
    its fields); reading follows `csv.DictReader`, writing follows `csv.writer` in
    append mode. */
module UrlsCsv {
  import opened Outcomes
  import opened Text
  import opened Json

  /** The fields of one CSV record. */
  type Record = seq<string>

  const SkuColumn: string := "product_sku"
  const Header: Record := [SkuColumn, "image_urls"]

  /** The exception reading the existing file can raise: `row['product_sku']` on a
      record whose header has no such column. */
  datatype CsvError = MissingColumn(key: string)

  /** The results file: whether it exists, and its records in file order. */
  datatype CsvState = CsvState(present: bool, records: seq<Record>)
  {
    /** A file that does not exist holds nothing. */
    predicate Valid()
    {
      !present ==> records == []
    }
  }

  /** The record `save_urls_to_csv` writes for a SKU. */
  function Row(sku: string, urls: seq<string>): Record
  {
    [sku, ArrayOf(urls)]
  }

  /** The records `DictReader` yields as rows: all after the first, blank ones skipped. */
  function DataRecords(records: seq<Record>): (r: seq<Record>)
    ensures forall x :: x in r <==> x in records && x != []
  {
    if records == [] then []
    else (if records[0] == [] then [] else [records[0]]) + DataRecords(records[1..])
  }

  /** The value a row holds for the column at index `k`: `None` (the reader's `restval`)
      when the row is shorter than the header. */
  function FieldAt(row: Record, k: nat): Option<string>
  {
    if k < |row| then Some(row[k]) else None
  }

  /** `{row['product_sku'] for row in DictReader(f)}`: the first record is the header;
      the lookup raises as soon as there is a row and the header lacks the column. */
  function RecordedSkus(records: seq<Record>): (r: Result<set<Option<string>>, CsvError>)
    ensures r.Failure? <==>
              records != [] && RFind(records[0], SkuColumn) < 0 && DataRecords(records[1..]) != []
    ensures (records == [] || DataRecords(records[1..]) == []) ==> r == Success({})
    ensures r.Success? && records != [] && RFind(records[0], SkuColumn) >= 0 ==>
              forall s :: s in r.value <==>
                exists row :: row in DataRecords(records[1..]) && s == FieldAt(row, RFind(records[0], SkuColumn))
  {
    if records == [] then Success({})
    else
      var rows := DataRecords(records[1..]);
      var k := RFind(records[0], SkuColumn);
      if rows == [] then Success({})
      else if k < 0 then Failure(MissingColumn(SkuColumn))
      else Success(set row | row in rows :: FieldAt(row, k))
  }

  /** What one call does: the warning it prints (whether the SKU was already recorded)
      or the exception it raises, and the file afterwards. */
  datatype SaveOutcome = SaveOutcome(result: Result<bool, CsvError>, after: CsvState)

  /** The header is written only when the file did not exist; the row is always appended,
      even for a SKU already recorded. */
  function SaveEffect(f: CsvState, sku: string, urls: seq<string>): SaveOutcome
  {
    var existing := if f.present then RecordedSkus(f.records) else Success({});
    match existing
    case Failure(e) => SaveOutcome(Failure(e), f)
    case Success(skus) =>
      var header := if f.present then [] else [Header];
      SaveOutcome(Success(Some(sku) in skus), CsvState(true, f.records + header + [Row(sku, urls)]))
  }

  /** The results file on disk. */
  class ResultsFile {
    var present: bool
    var records: seq<Record>

    function State(): CsvState
      reads this
    {
      CsvState(present, records)
    }

    constructor (initial: CsvState)
      requires initial.Valid()
      ensures State() == initial
    {
      present := initial.present;
      records := initial.records;
    }

    /** `save_urls_to_csv(sku, urls)`: reads the SKUs already recorded, then appends the
        header (for a new file) and the row. The result says whether the duplicate-SKU
        warning is printed. */
    method SaveUrlsToCsv(sku: string, urls: seq<string>) returns (r: Result<bool, CsvError>)
      requires State().Valid()
      modifies this
      ensures State().Valid()
      ensures SaveEffect(old(State()), sku, urls) == SaveOutcome(r, State())
    {
      var fileExists := present;
      var existing: set<Option<string>> := {};
      if fileExists {
        var read := RecordedSkus(records);
        if read.Failure? {
          return Failure(read.error);
        }
        existing := read.value;
      }
      if !fileExists {
        records := records + [Header];
        present := true;
      }
      var duplicate := Some(sku) in existing;
      records := records + [Row(sku, urls)];
      r := Success(duplicate);
    }
  }

  /** A successful save leaves an existing file whose old records come first, then the
      header when the file was new, then exactly one new row: the SKU and its URLs, which
      read back from the JSON field unchanged. */
  lemma SaveAppendsRow(f: CsvState, sku: string, urls: seq<string>)
    requires SaveEffect(f, sku, urls).result.Success?
    ensures var g := SaveEffect(f, sku, urls).after;
            && g.present
            && |g.records| == |f.records| + (if f.present then 1 else 2)
            && g.records[..|f.records|] == f.records
            && (!f.present ==> g.records[|f.records|] == Header)
            && g.records[|g.records| - 1][0] == sku
            && ParseArray(g.records[|g.records| - 1][1]) == Some(urls)
  {
    ArrayRoundTrip(urls);
  }

  /** Reading fails or the file is left exactly as it was. */
  lemma SaveFailureChangesNothing(f: CsvState, sku: string, urls: seq<string>)
    ensures SaveEffect(f, sku, urls).result.Failure? <==>
              f.present && RecordedSkus(f.records).Failure?
    ensures SaveEffect(f, sku, urls).result.Failure? ==> SaveEffect(f, sku, urls).after == f
  {
  }

  /** The records written for a sequence of saves, one row each. */
  function Rows(saves: seq<(string, seq<string>)>): (r: seq<Record>)
    ensures |r| == |saves|
    ensures forall i :: 0 <= i < |saves| ==> r[i] == Row(saves[i].0, saves[i].1)
  {
    if saves == [] then [] else Rows(saves[..|saves| - 1]) + [Row(saves[|saves| - 1].0, saves[|saves| - 1].1)]
  }

  /** The SKUs of a sequence of saves. */
  function SkusOf(saves: seq<(string, seq<string>)>): set<Option<string>>
  {
    set i | 0 <= i < |saves| :: Some(saves[i].0)
  }

  /** The SKU column of the rows written for `saves` holds their SKUs. */
  lemma RowsSkus(saves: seq<(string, seq<string>)>)
    ensures (set row | row in DataRecords(Rows(saves)) :: FieldAt(row, 0)) == SkusOf(saves)
  {
    var rows := Rows(saves);
    forall i | 0 <= i < |saves| ensures rows[i] != [] && rows[i][0] == saves[i].0 {
      assert rows[i] == Row(saves[i].0, saves[i].1);
    }
    LeadingSkus(saves, rows);
  }

  /** Records that each start with the SKU of the save at the same index. */
  lemma LeadingSkus(saves: seq<(string, seq<string>)>, rows: seq<Record>)
    requires |rows| == |saves|
    requires forall i :: 0 <= i < |saves| ==> rows[i] != [] && rows[i][0] == saves[i].0
    ensures (set row | row in DataRecords(rows) :: FieldAt(row, 0)) == SkusOf(saves)
  {
    var data := DataRecords(rows);
    forall s ensures s in SkusOf(saves) <==> exists row :: row in data && s == FieldAt(row, 0) {
      if s in SkusOf(saves) {
        var i :| 0 <= i < |saves| && s == Some(saves[i].0);
        assert rows[i] in data;
      }
      if exists row :: row in data && s == FieldAt(row, 0) {
        var row :| row in data && s == FieldAt(row, 0);
        var i :| 0 <= i < |rows| && rows[i] == row;
      }
    }
  }

  /** A file holding the header and rows this function wrote records exactly their SKUs. */
  lemma OwnFileSkus(saves: seq<(string, seq<string>)>)
    ensures RecordedSkus([Header] + Rows(saves)) == Success(SkusOf(saves))
  {
    var records := [Header] + Rows(saves);
    assert records[1..] == Rows(saves);
    assert RFind(Header, SkuColumn) == 0;
    if saves != [] {
      assert Rows(saves)[0] in DataRecords(Rows(saves));
      RowsSkus(saves);
    } else {
      assert SkusOf(saves) == {};
    }
  }

  /** Saves one after another, starting from state `f`: what each call returned, and
      the file at the end. */
  function SaveAll(f: CsvState, saves: seq<(string, seq<string>)>): (seq<Result<bool, CsvError>>, CsvState)
    decreases |saves|
  {
    if saves == [] then ([], f)
    else
      var last := saves[|saves| - 1];
      var earlier := SaveAll(f, saves[..|saves| - 1]);
      var o := SaveEffect(earlier.1, last.0, last.1);
      (earlier.0 + [o.result], o.after)
  }

  /** Whether each save warns: exactly when an earlier save recorded its SKU. */
  ghost predicate WarnsOnRepeat(saves: seq<(string, seq<string>)>, results: seq<Result<bool, CsvError>>)
  {
    |results| == |saves| && forall i :: 0 <= i < |saves| ==> results[i] == Success(Some(saves[i].0) in SkusOf(saves[..i]))
  }

  lemma WarnsOnRepeatStep(saves: seq<(string, seq<string>)>, earlier: seq<Result<bool, CsvError>>,
                          results: seq<Result<bool, CsvError>>)
    requires saves != [] && WarnsOnRepeat(saves[..|saves| - 1], earlier)
    requires results == earlier + [Success(Some(saves[|saves| - 1].0) in SkusOf(saves[..|saves| - 1]))]
    ensures WarnsOnRepeat(saves, results)
  {
    var n := |saves|;
    forall i | 0 <= i < n ensures results[i] == Success(Some(saves[i].0) in SkusOf(saves[..i])) {
      if i < n - 1 {
        assert results[i] == earlier[i];
        assert saves[..n - 1][..i] == saves[..i];
      }
    }
  }

  /** One more save on a file holding the header and the rows of `init`: it warns exactly
      when `init` recorded the SKU, and appends the row. */
  lemma SaveOnOwnFile(init: seq<(string, seq<string>)>, sku: string, urls: seq<string>)
    ensures SaveEffect(CsvState(true, [Header] + Rows(init)), sku, urls)
              == SaveOutcome(Success(Some(sku) in SkusOf(init)), CsvState(true, [Header] + Rows(init + [(sku, urls)])))
  {
    OwnFileSkus(init);
    var saves := init + [(sku, urls)];
    assert saves[..|saves| - 1] == init;
    assert Rows(saves) == Rows(init) + [Row(sku, urls)];
    assert ([Header] + Rows(init)) + [Row(sku, urls)] == [Header] + Rows(saves);
  }

  /** Starting from no file: the header is written once, first; every save succeeds and
      appends its own row; and a save warns exactly when an earlier save recorded its SKU. */
  lemma {:induction false} SavesFromNoFile(saves: seq<(string, seq<string>)>)
    requires saves != []
    ensures SaveAll(CsvState(false, []), saves).1 == CsvState(true, [Header] + Rows(saves))
    ensures WarnsOnRepeat(saves, SaveAll(CsvState(false, []), saves).0)
  {
    var n := |saves|;
    var init := saves[..n - 1];
    if n == 1 {
      assert Rows(saves) == [Row(saves[0].0, saves[0].1)];
      assert SkusOf(saves[..0]) == {};
    } else {
      SavesFromNoFile(init);
      assert init + [saves[n - 1]] == saves;
      SaveOnOwnFile(init, saves[n - 1].0, saves[n - 1].1);
      WarnsOnRepeatStep(saves, SaveAll(CsvState(false, []), init).0, SaveAll(CsvState(false, []), saves).0);
    }
  }

  /** A results file that exists but is empty never gets a header: the first row saved
      becomes the header, the second is accepted, and a third save raises, unless the
      first SKU happens to be the column name itself. */
  lemma EmptyFileNeverGetsHeader(s1: string, u1: seq<string>, s2: string, u2: seq<string>,
                                 s3: string, u3: seq<string>)
    requires s1 != SkuColumn
    ensures var f1 := SaveEffect(CsvState(true, []), s1, u1);
            var f2 := SaveEffect(f1.after, s2, u2);
            var f3 := SaveEffect(f2.after, s3, u3);
            && f1.result == Success(false) && f1.after.records == [Row(s1, u1)]
            && f2.result == Success(false)
            && f3.result == Failure(MissingColumn(SkuColumn))
            && f3.after == f2.after
  {
    ArrayOfPrintable(u1);
    var f1 := SaveEffect(CsvState(true, []), s1, u1);
    assert f1.after.records == [Row(s1, u1)];
    assert RFind(Row(s1, u1), SkuColumn) == -1 by {
      assert ArrayOf(u1) != SkuColumn;
      assert Row(s1, u1)[..1] == [s1];
    }
    var f2 := SaveEffect(f1.after, s2, u2);
    assert f2.after.records == [Row(s1, u1), Row(s2, u2)];
    assert DataRecords(f2.after.records[1..]) == [Row(s2, u2)];
  }
}
