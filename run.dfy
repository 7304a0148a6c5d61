/** `main` of `batch_upload_product.py`: upper-case the SKU argument, upload the
    product's images, record their URLs in the results file when there are any, and
    exit with status 0 only then. Printing is left out; the arguments, the disk, the
    tracking file and the git outcomes are parameters. */
module Driver {
  import opened Outcomes
  import opened Text
  import opened Files
  import opened Uploader
  import opened Batch
  import opened UrlsCsv

  /** How a run ends: its exit status and the results file afterwards. */
  datatype RunOutcome = RunOutcome(exitCode: int, csv: CsvState)

  /** The optional second argument: a product folder that replaces the lookup. */
  function FolderArg(args: seq<string>): Option<string>
  {
    if |args| >= 3 then Some(args[2]) else None
  }

  /** The whole run: too few arguments, an exception from the upload, no URL, or an
      exception while reading the results file all end with status 1 and leave the
      results file as it was. */
  function RunEffect(args: seq<string>, fs: FileSystem, tracking: Option<seq<SkuRow>>,
                     outcomes: nat -> GitOutcome, csv: CsvState): RunOutcome
  {
    if |args| < 2 then RunOutcome(1, csv)
    else
      var sku := AsciiUpper(args[1]);
      match BatchUrls(fs, tracking, sku, FolderArg(args), outcomes)
      case Failure(_) => RunOutcome(1, csv)
      case Success(urls) =>
        if urls == [] then RunOutcome(1, csv)
        else
          var o := SaveEffect(csv, sku, urls);
          if o.result.Failure? then RunOutcome(1, csv) else RunOutcome(0, o.after)
  }

  /** `main(argv)`; `staged` is what the staging clone's `images/` holds beforehand. */
  method RunBatch(args: seq<string>, fs: FileSystem, tracking: Option<seq<SkuRow>>,
                  staged: map<string, Bytes>, outcomes: nat -> GitOutcome, results: ResultsFile)
    returns (exitCode: int)
    requires results.State().Valid()
    modifies results
    ensures results.State().Valid()
    ensures RunEffect(args, fs, tracking, outcomes, old(results.State())) == RunOutcome(exitCode, results.State())
  {
    if |args| < 2 {
      return 1;
    }
    var sku := AsciiUpper(args[1]);
    var folderArg: Option<string> := None;
    if |args| >= 3 {
      folderArg := Some(args[2]);
    }
    var urls, uploader, reached := UploadProductImages(fs, tracking, sku, folderArg, staged, outcomes);
    if urls.Failure? {
      return 1;
    }
    if urls.value == [] {
      return 1;
    }
    var saved := results.SaveUrlsToCsv(sku, urls.value);
    if saved.Failure? {
      return 1;
    }
    exitCode := 0;
  }

  /** The exit status is 0 or 1; it is 0 exactly when a SKU was given, the upload
      produced at least one URL and the results file could be read; any other run
      leaves the results file untouched. */
  lemma RunExitStatus(args: seq<string>, fs: FileSystem, tracking: Option<seq<SkuRow>>,
                      outcomes: nat -> GitOutcome, csv: CsvState)
    ensures var o := RunEffect(args, fs, tracking, outcomes, csv);
            && (o.exitCode == 0 || o.exitCode == 1)
            && (o.exitCode == 0 <==>
                  |args| >= 2
                  && BatchUrls(fs, tracking, AsciiUpper(args[1]), FolderArg(args), outcomes).Success?
                  && BatchUrls(fs, tracking, AsciiUpper(args[1]), FolderArg(args), outcomes).value != []
                  && (csv.present ==> RecordedSkus(csv.records).Success?))
            && (o.exitCode != 0 ==> o.csv == csv)
  {
    if |args| >= 2 {
      var sku := AsciiUpper(args[1]);
      var b := BatchUrls(fs, tracking, sku, FolderArg(args), outcomes);
      if b.Success? && b.value != [] {
        SaveFailureChangesNothing(csv, sku, b.value);
      }
    }
  }

  /** A successful run appends one row, last in the file: the upper-cased SKU, which holds
      no lower-case ASCII letter, and the non-empty list of uploaded URLs. */
  lemma RunRecordsRow(args: seq<string>, fs: FileSystem, tracking: Option<seq<SkuRow>>,
                      outcomes: nat -> GitOutcome, csv: CsvState)
    requires RunEffect(args, fs, tracking, outcomes, csv).exitCode == 0
    ensures |args| >= 2
    ensures var sku := AsciiUpper(args[1]);
            var urls := BatchUrls(fs, tracking, sku, FolderArg(args), outcomes).value;
            var after := RunEffect(args, fs, tracking, outcomes, csv).csv;
            && urls != []
            && after.present && |after.records| > |csv.records|
            && after.records[..|csv.records|] == csv.records
            && after.records[|after.records| - 1] == Row(sku, urls)
            && forall i :: 0 <= i < |sku| ==> !IsLowerAscii(sku[i])
  {
    var sku := AsciiUpper(args[1]);
    var urls := BatchUrls(fs, tracking, sku, FolderArg(args), outcomes).value;
    SaveAppendsRow(csv, sku, urls);
    AsciiUpperIdempotent(args[1]);
  }

  /** The SKU argument is case-insensitive for ASCII letters: two runs whose SKU
      arguments upper-case alike do the same. */
  lemma SkuCaseInsensitive(args: seq<string>, other: string, fs: FileSystem,
                           tracking: Option<seq<SkuRow>>, outcomes: nat -> GitOutcome, csv: CsvState)
    requires |args| >= 2 && AsciiUpper(args[1]) == AsciiUpper(other)
    ensures RunEffect(args[1 := other], fs, tracking, outcomes, csv) == RunEffect(args, fs, tracking, outcomes, csv)
  {
    assert FolderArg(args[1 := other]) == FolderArg(args);
  }
}
