/** The batch driver (`batch_upload_product.py`): find a product's folder from its SKU,
    list the product's images in name order, upload each one and collect the URLs. */
module Batch {
  import opened Outcomes
  import opened Text
  import opened PurePaths
  import opened Files
  import opened NameSort
  import opened Uploader

  const GithubUsername: string := "CaCEO1"
  const RepoName: string := "bey-images"
  /** The SKU tracking file read by the lookup. */
  const TrackingCsv: string := "PROJECT_DATA/generated_skus.csv"
  /** Directory that bare product-folder names are resolved under. */
  const BasePath: string := "Package4"

  /** One record of the tracking file: columns `sku` and `product_folder`. */
  datatype SkuRow = SkuRow(sku: string, productFolder: string)

  /** The exceptions that end a batch run. */
  datatype BatchError =
    | TrackingFileMissing(path: string)
    | SkuNotFound(sku: string)
    | FolderNotFound(path: string)
    | UploadRaised(error: UploadError)

  // ---------------------------------------------------------------- SKU lookup

  /** Index of the first record whose SKU equals `sku` exactly, if any. */
  function FirstMatch(rows: seq<SkuRow>, sku: string): (r: Option<nat>)
    ensures r.None? ==> forall j :: 0 <= j < |rows| ==> rows[j].sku != sku
    ensures r.Some? ==> r.value < |rows| && rows[r.value].sku == sku
                        && forall j :: 0 <= j < r.value ==> rows[j].sku != sku
  {
    if rows == [] then None
    else if rows[0].sku == sku then Some(0)
    else match FirstMatch(rows[1..], sku)
      case None => None
      case Some(k) => Some(k + 1)
  }

  /** `find_product_folder`: `tracking` is the tracking file's records, or `None` when the
      file does not exist. A missing file is reported before any record is read; a SKU
      that no record carries is "not found"; otherwise the first matching record wins. */
  function FindProductFolder(tracking: Option<seq<SkuRow>>, sku: string): (r: Result<string, BatchError>)
    ensures tracking.None? ==> r == Failure(TrackingFileMissing(TrackingCsv))
    ensures tracking.Some? ==>
              (r.Success? <==> exists i :: 0 <= i < |tracking.value| && tracking.value[i].sku == sku)
    ensures tracking.Some? && r.Failure? ==> r.error == SkuNotFound(sku)
    ensures r.Success? ==>
              exists i :: 0 <= i < |tracking.value| && tracking.value[i].sku == sku
                && r.value == tracking.value[i].productFolder
                && forall j :: 0 <= j < i ==> tracking.value[j].sku != sku
  {
    match tracking
    case None => Failure(TrackingFileMissing(TrackingCsv))
    case Some(rows) =>
      match FirstMatch(rows, sku)
      case None => Failure(SkuNotFound(sku))
      case Some(i) => Success(rows[i].productFolder)
  }

  /** Records after the first match are never consulted: appending more records, even
      ones with the same SKU, does not change the answer. */
  lemma FindIgnoresLaterRows(rows: seq<SkuRow>, more: seq<SkuRow>, sku: string)
    requires exists i :: 0 <= i < |rows| && rows[i].sku == sku
    ensures FindProductFolder(Some(rows + more), sku) == FindProductFolder(Some(rows), sku)
  {
    var all := rows + more;
    var i :| 0 <= i < |rows| && rows[i].sku == sku;
    assert all[i].sku == sku;
    assert forall j :: 0 <= j < |rows| ==> all[j] == rows[j];
  }

  // ---------------------------------------------------------------- folder resolution

  /** A folder containing `/` is used as given; a bare name is joined under `Package4`. */
  function ResolveFolder(productFolder: string): string
  {
    if '/' in productFolder then productFolder else JoinPath(BasePath, productFolder)
  }

  /** A bare, non-empty folder name becomes the child of that name under `Package4`. */
  lemma ResolveBareFolder(productFolder: string)
    requires '/' !in productFolder && productFolder != ""
    ensures ResolveFolder(productFolder) == BasePath + "/" + productFolder
    ensures Name(ResolveFolder(productFolder)) == productFolder
  {
    NameOfChild(BasePath, productFolder);
  }

  // ---------------------------------------------------------------- image enumeration

  /** The extensions globbed for, each also in its upper-cased form. */
  const ImageExtensions: seq<string> := [".jpg", ".jpeg", ".png", ".gif"]

  /** The eight glob suffixes in the order the enumeration loop uses them. */
  const ImagePatterns: seq<string> := [".jpg", ".JPG", ".jpeg", ".JPEG", ".png", ".PNG", ".gif", ".GIF"]

  lemma PatternsFollowExtensions()
    ensures |ImagePatterns| == 2 * |ImageExtensions|
    ensures forall i :: 0 <= i < |ImageExtensions| ==>
              ImagePatterns[2 * i] == ImageExtensions[i]
              && ImagePatterns[2 * i + 1] == AsciiUpper(ImageExtensions[i])
  {
    UpperCased(".jpg", ".JPG");
    UpperCased(".jpeg", ".JPEG");
    UpperCased(".png", ".PNG");
    UpperCased(".gif", ".GIF");
  }

  /** `dir.glob("*" + suffix)` over a directory listing: the names ending in `suffix`,
      in listing order (matching is case-sensitive). */
  function Glob(listing: seq<string>, suffix: string): (r: seq<string>)
    ensures forall n :: n in r <==> n in listing && EndsWith(n, suffix)
  {
    if listing == [] then []
    else (if EndsWith(listing[0], suffix) then [listing[0]] else []) + Glob(listing[1..], suffix)
  }

  /** One glob per suffix, their results concatenated as `extend` does. */
  function GlobAll(listing: seq<string>, suffixes: seq<string>): seq<string>
  {
    if suffixes == [] then [] else Glob(listing, suffixes[0]) + GlobAll(listing, suffixes[1..])
  }

  lemma {:induction false} GlobAllAppend(listing: seq<string>, ps: seq<string>, qs: seq<string>)
    ensures GlobAll(listing, ps + qs) == GlobAll(listing, ps) + GlobAll(listing, qs)
  {
    if ps != [] {
      assert (ps + qs)[1..] == ps[1..] + qs;
      GlobAllAppend(listing, ps[1..], qs);
    } else {
      assert ps + qs == qs;
    }
  }

  /** A name some glob in `suffixes` matches. */
  predicate MatchesSome(n: string, suffixes: seq<string>)
  {
    exists j :: 0 <= j < |suffixes| && EndsWith(n, suffixes[j])
  }

  lemma {:induction false} GlobAllMembers(listing: seq<string>, ps: seq<string>, n: string)
    ensures n in GlobAll(listing, ps) <==> n in listing && MatchesSome(n, ps)
  {
    if ps != [] {
      GlobAllMembers(listing, ps[1..], n);
      if MatchesSome(n, ps) && !EndsWith(n, ps[0]) {
        var j :| 0 <= j < |ps| && EndsWith(n, ps[j]);
        assert EndsWith(n, ps[1..][j - 1]);
      }
      if MatchesSome(n, ps[1..]) {
        var j :| 0 <= j < |ps[1..]| && EndsWith(n, ps[1..][j]);
        assert EndsWith(n, ps[j + 1]);
      }
    }
  }

  /** The file-name filter: a name ending in one of the extensions, all lower-case or all
      upper-case. */
  predicate IsImageName(n: string)
  {
    MatchesSome(n, ImagePatterns)
  }

  /** The filter in the terms of the source: for some extension `ext`, the name matches
      `*<ext>` or `*<ext.upper()>`. */
  lemma IsImageNameByExtension(n: string)
    ensures IsImageName(n) <==>
              exists i :: 0 <= i < |ImageExtensions| &&
                (EndsWith(n, ImageExtensions[i]) || EndsWith(n, AsciiUpper(ImageExtensions[i])))
  {
    PatternsFollowExtensions();
    if IsImageName(n) {
      var j :| 0 <= j < |ImagePatterns| && EndsWith(n, ImagePatterns[j]);
      var i := j / 2;
      assert j == 2 * i || j == 2 * i + 1;
      assert ImagePatterns[2 * i] == ImageExtensions[i];
    }
  }

  /** Mixed-case extensions are not matched; the upper-case form is. */
  lemma MixedCaseExtensionExcluded()
    ensures !IsImageName("photo.Png")
    ensures IsImageName("photo.PNG")
  {
    assert EndsWith("photo.PNG", ImagePatterns[5]);
    forall j | 0 <= j < |ImagePatterns| ensures !EndsWith("photo.Png", ImagePatterns[j]) {
      var p := ImagePatterns[j];
      assert "photo.Png"[|"photo.Png"| - 1] == 'g';
      assert "photo.Png"[|"photo.Png"| - 2] == 'n';
      assert "photo.Png"[|"photo.Png"| - 3] == 'P';
    }
  }

  /** The images of one product: the resolved folder and the image names inside it. */
  datatype ProductImages = ProductImages(folder: string, names: seq<string>)
  {
    /** `str(image_path)` of the `i`-th image. */
    function PathOf(i: nat): string
      requires i < |names|
    {
      folder + "/" + names[i]
    }
  }

  /** What globbing sees under `path`: a directory's listing; nothing under a regular file. */
  function Listing(fs: FileSystem, path: string): seq<string>
  {
    if path in fs.dirs then fs.dirs[path] else []
  }

  /** The image names of a listing, as `get_product_images` returns them. */
  function ImagesOf(listing: seq<string>): seq<string>
  {
    SortByName(GlobAll(listing, ImagePatterns))
  }

  /** `get_product_images`: a folder that does not exist raises; an existing one yields
      its image names, possibly none. */
  function ProductImagesOf(fs: FileSystem, productFolder: string): Result<ProductImages, BatchError>
  {
    var path := ResolveFolder(productFolder);
    if !fs.Exists(path) then Failure(FolderNotFound(path))
    else Success(ProductImages(path, ImagesOf(Listing(fs, path))))
  }

  /** The returned names are in non-decreasing name order and are exactly the listed
      names that pass the image filter. */
  lemma ImagesOfSortedAndFiltered(listing: seq<string>)
    ensures forall i, j :: 0 <= i <= j < |ImagesOf(listing)| ==>
              NameLe(ImagesOf(listing)[i], ImagesOf(listing)[j])
    ensures forall n :: n in ImagesOf(listing) <==> n in listing && IsImageName(n)
  {
    SortedPairwise(ImagesOf(listing));
    forall n ensures n in ImagesOf(listing) <==> n in listing && IsImageName(n) {
      assert n in ImagesOf(listing) <==> n in multiset(GlobAll(listing, ImagePatterns));
      GlobAllMembers(listing, ImagePatterns, n);
    }
  }

  /** A listing without repeated names. */
  ghost predicate Distinct(s: seq<string>)
  {
    forall n :: multiset(s)[n] <= 1
  }

  /** The next-to-last character of each of the eight suffixes, in order. */
  const PatternKeys: string := "pPeEnNiI"

  lemma PatternKey(j: nat)
    requires j < |ImagePatterns|
    ensures |ImagePatterns[j]| >= 2 && ImagePatterns[j][|ImagePatterns[j]| - 2] == PatternKeys[j]
  {
  }

  lemma PatternKeysDistinct(j: nat, k: nat)
    requires j < |PatternKeys| && k < |PatternKeys| && PatternKeys[j] == PatternKeys[k]
    ensures j == k
  {
  }

  /** A name ends in at most one of the eight suffixes: their next-to-last characters differ. */
  lemma PatternsExclusive(n: string, j: nat, k: nat)
    requires j < |ImagePatterns| && k < |ImagePatterns|
    requires EndsWith(n, ImagePatterns[j]) && EndsWith(n, ImagePatterns[k])
    ensures j == k
  {
    PatternKey(j);
    PatternKey(k);
    var p, q := ImagePatterns[j], ImagePatterns[k];
    assert p[|p| - 2] == n[|n| - 2] == q[|q| - 2] by {
      assert n[|n| - |p|..][|p| - 2] == p[|p| - 2];
      assert n[|n| - |q|..][|q| - 2] == q[|q| - 2];
    }
    PatternKeysDistinct(j, k);
  }

  lemma {:induction false} GlobCount(listing: seq<string>, suffix: string, n: string)
    ensures multiset(Glob(listing, suffix))[n] == if EndsWith(n, suffix) then multiset(listing)[n] else 0
  {
    if listing != [] {
      GlobCount(listing[1..], suffix, n);
      assert listing == [listing[0]] + listing[1..];
    }
  }

  /** Globbing with suffixes no name matches twice never repeats a listed name. */
  lemma {:induction false} GlobAllCount(listing: seq<string>, ps: seq<string>, n: string)
    requires forall j, k :: 0 <= j < k < |ps| && EndsWith(n, ps[j]) ==> !EndsWith(n, ps[k])
    ensures multiset(GlobAll(listing, ps))[n] <= multiset(listing)[n]
    ensures !MatchesSome(n, ps) ==> multiset(GlobAll(listing, ps))[n] == 0
  {
    if ps != [] {
      GlobCount(listing, ps[0], n);
      GlobAllCount(listing, ps[1..], n);
      if EndsWith(n, ps[0]) {
        assert !MatchesSome(n, ps[1..]) by {
          forall k | 0 <= k < |ps[1..]| ensures !EndsWith(n, ps[1..][k]) {
            assert ps[1..][k] == ps[k + 1];
          }
        }
      }
      if !MatchesSome(n, ps) {
        assert !MatchesSome(n, ps[1..]) by {
          forall k | 0 <= k < |ps[1..]| ensures !EndsWith(n, ps[1..][k]) {
            assert ps[1..][k] == ps[k + 1];
          }
        }
      }
    }
  }

  /** On a listing without repeats (a real directory), no image is returned twice. */
  lemma ImagesOfDistinct(listing: seq<string>)
    requires Distinct(listing)
    ensures Distinct(ImagesOf(listing))
  {
    forall n ensures multiset(ImagesOf(listing))[n] <= 1 {
      forall j, k | 0 <= j < k < |ImagePatterns| && EndsWith(n, ImagePatterns[j])
        ensures !EndsWith(n, ImagePatterns[k])
      {
        if EndsWith(n, ImagePatterns[k]) {
          PatternsExclusive(n, j, k);
        }
      }
      GlobAllCount(listing, ImagePatterns, n);
    }
  }

  /** One turn of the enumeration loop globs the next two suffixes. */
  lemma GlobStep(listing: seq<string>, i: nat)
    requires i < |ImageExtensions|
    ensures GlobAll(listing, ImagePatterns[..2 * i + 2]) ==
              GlobAll(listing, ImagePatterns[..2 * i]) + Glob(listing, ImageExtensions[i])
              + Glob(listing, AsciiUpper(ImageExtensions[i]))
  {
    PatternsFollowExtensions();
    var ext := ImageExtensions[i];
    assert ImagePatterns[..2 * i + 2] == ImagePatterns[..2 * i] + [ext, AsciiUpper(ext)];
    GlobAllAppend(listing, ImagePatterns[..2 * i], [ext, AsciiUpper(ext)]);
    var up := AsciiUpper(ext);
    assert GlobAll(listing, [ext, up]) == Glob(listing, ext) + Glob(listing, up) by {
      assert [ext, up][1..] == [up];
      assert [up][1..] == [];
      assert GlobAll(listing, [up]) == Glob(listing, up) + GlobAll(listing, []);
      assert Glob(listing, up) + [] == Glob(listing, up);
    }
  }

  /** `get_product_images`: resolve the folder, check it exists, glob each extension as
      given and upper-cased, and sort the collected paths by name. */
  method GetProductImages(fs: FileSystem, productFolder: string) returns (r: Result<ProductImages, BatchError>)
    ensures r == ProductImagesOf(fs, productFolder)
  {
    var productPath := ResolveFolder(productFolder);
    if !fs.Exists(productPath) {
      return Failure(FolderNotFound(productPath));
    }
    var images := GlobImages(Listing(fs, productPath));
    r := Success(ProductImages(productPath, SortByName(images)));
  }

  /** The extension loop of `get_product_images`: for each extension, the glob of the
      extension as given and then of its upper-cased form. */
  method GlobImages(listing: seq<string>) returns (images: seq<string>)
    ensures images == GlobAll(listing, ImagePatterns)
  {
    images := [];
    for i := 0 to |ImageExtensions|
      invariant images == GlobAll(listing, ImagePatterns[..2 * i])
    {
      var ext := ImageExtensions[i];
      GlobStep(listing, i);
      images := images + Glob(listing, ext);
      images := images + Glob(listing, AsciiUpper(ext));
    }
    assert ImagePatterns[..2 * |ImageExtensions|] == ImagePatterns;
  }

  // ---------------------------------------------------------------- uploading

  /** The URLs among a run of upload results, in order: every `None` is skipped. */
  function Urls(results: seq<Upload>): (r: seq<string>)
    ensures |r| <= |results|
  {
    if results == [] then []
    else (if results[0].Uploaded? then [results[0].url] else []) + Urls(results[1..])
  }

  lemma {:induction false} UrlsAppend(a: seq<Upload>, b: seq<Upload>)
    ensures Urls(a + b) == Urls(a) + Urls(b)
  {
    if a != [] {
      assert (a + b)[1..] == a[1..] + b;
      UrlsAppend(a[1..], b);
    } else {
      assert a + b == b;
    }
  }

  /** A URL is collected exactly when some upload produced it. */
  lemma {:induction false} UrlsMembers(results: seq<Upload>, u: string)
    ensures u in Urls(results) <==> exists i :: 0 <= i < |results| && results[i] == Uploaded(u)
  {
    if results != [] {
      UrlsMembers(results[1..], u);
      if exists i :: 0 <= i < |results[1..]| && results[1..][i] == Uploaded(u) {
        var i :| 0 <= i < |results[1..]| && results[1..][i] == Uploaded(u);
        assert results[i + 1] == Uploaded(u);
      }
      if exists i :: 0 <= i < |results| && results[i] == Uploaded(u) {
        var i :| 0 <= i < |results| && results[i] == Uploaded(u);
        if i > 0 {
          assert results[1..][i - 1] == Uploaded(u);
        }
      }
    }
  }

  /** A failed upload contributes nothing and does not stop the uploads after it. */
  lemma FailureSkipped(before: seq<Upload>, after: seq<Upload>)
    ensures Urls(before + [GitFailed] + after) == Urls(before) + Urls(after)
  {
    UrlsAppend(before + [GitFailed], after);
    UrlsAppend(before, [GitFailed]);
  }

  /** The upload loop's outcome: the first exception ends it; otherwise the URLs. */
  function Collect(results: seq<Upload>): (r: Result<seq<string>, BatchError>)
    ensures r.Success? <==> forall i :: 0 <= i < |results| ==> !results[i].Raised?
    ensures r.Success? ==> r.value == Urls(results)
    ensures r.Failure? ==>
              exists i :: 0 <= i < |results| && results[i].Raised?
                && r.error == UploadRaised(results[i].error)
                && forall j :: 0 <= j < i ==> !results[j].Raised?
  {
    if results == [] then Success([])
    else if results[0].Raised? then Failure(UploadRaised(results[0].error))
    else
      match Collect(results[1..])
      case Failure(e) =>
        assert forall j :: 0 <= j < |results[1..]| ==> results[1..][j] == results[j + 1];
        Failure(e)
      case Success(us) =>
        assert forall j :: 0 <= j < |results[1..]| ==> results[1..][j] == results[j + 1];
        Success((if results[0].Uploaded? then [results[0].url] else []) + us)
  }

  /** URLs collected so far, put in front of the outcome of the remaining uploads. */
  function After(urls: seq<string>, rest: Result<seq<string>, BatchError>): Result<seq<string>, BatchError>
  {
    if rest.Success? then Success(urls + rest.value) else rest
  }

  /** The name each image is uploaded under. */
  function DestOf(imgs: ProductImages, i: nat): string
    requires i < |imgs.names|
  {
    DestName(imgs.PathOf(i), Some(Stem(imgs.names[i])))
  }

  /** What uploading the `i`-th image returns; `outcomes(i)` is how its git commands fare. */
  function UploadAt(fs: FileSystem, imgs: ProductImages, outcomes: nat -> GitOutcome, i: nat): Upload
    requires i < |imgs.names|
  {
    UploadResult(fs, imgs.PathOf(i), Some(Stem(imgs.names[i])), outcomes(i), GithubUsername, RepoName)
  }

  /** What uploading the images from the `i`-th on returns, in enumeration order. */
  function UploadsFrom(fs: FileSystem, imgs: ProductImages, outcomes: nat -> GitOutcome, i: nat): (r: seq<Upload>)
    requires i <= |imgs.names|
    ensures |r| == |imgs.names| - i
    ensures forall j :: 0 <= j < |r| ==> r[j] == UploadAt(fs, imgs, outcomes, i + j)
    decreases |imgs.names| - i
  {
    if i == |imgs.names| then []
    else [UploadAt(fs, imgs, outcomes, i)] + UploadsFrom(fs, imgs, outcomes, i + 1)
  }

  /** What uploading every image returns, in enumeration order. */
  function UploadResults(fs: FileSystem, imgs: ProductImages, outcomes: nat -> GitOutcome): seq<Upload>
  {
    UploadsFrom(fs, imgs, outcomes, 0)
  }

  /** The loop's outcome from the `i`-th image on, read one image at a time as the loop
      runs: an exception ends it, otherwise the image's URL, if any, comes first. */
  function CollectFrom(fs: FileSystem, imgs: ProductImages, outcomes: nat -> GitOutcome, i: nat)
    : Result<seq<string>, BatchError>
    requires i <= |imgs.names|
    decreases |imgs.names| - i
  {
    if i == |imgs.names| then Success([])
    else
      var x := UploadAt(fs, imgs, outcomes, i);
      if x.Raised? then Failure(UploadRaised(x.error))
      else After(if x.Uploaded? then [x.url] else [], CollectFrom(fs, imgs, outcomes, i + 1))
  }

  /** Reading the uploads one image at a time gives what `Collect` gives over them. */
  lemma {:induction false} CollectFromUploads(fs: FileSystem, imgs: ProductImages, outcomes: nat -> GitOutcome, i: nat)
    requires i <= |imgs.names|
    ensures CollectFrom(fs, imgs, outcomes, i) == Collect(UploadsFrom(fs, imgs, outcomes, i))
    decreases |imgs.names| - i
  {
    if i < |imgs.names| {
      var s := UploadsFrom(fs, imgs, outcomes, i);
      assert s[0] == UploadAt(fs, imgs, outcomes, i) && s[1..] == UploadsFrom(fs, imgs, outcomes, i + 1);
      CollectFromUploads(fs, imgs, outcomes, i + 1);
      if !s[0].Raised? {
        CollectCons(s);
      }
    }
  }

  /** How far the loop gets from the `i`-th image on: the index of the first image that is
      not a regular file (missing, or a directory), or the number of images when all are. */
  function FirstRaise(fs: FileSystem, imgs: ProductImages, i: nat): (k: nat)
    requires i <= |imgs.names|
    ensures i <= k <= |imgs.names|
    decreases |imgs.names| - i
  {
    if i == |imgs.names| then i
    else if imgs.PathOf(i) !in fs.files then i
    else FirstRaise(fs, imgs, i + 1)
  }

  /** Every image from the `s`-th up to the first that is not a regular file gets there too. */
  lemma {:induction false} FirstRaiseFrom(fs: FileSystem, imgs: ProductImages, s: nat, i: nat)
    requires s <= |imgs.names| && s <= i <= FirstRaise(fs, imgs, s)
    ensures FirstRaise(fs, imgs, s) == FirstRaise(fs, imgs, i)
    decreases i - s
  {
    if s < i {
      FirstRaiseFrom(fs, imgs, s + 1, i);
    }
  }

  /** One turn of the loop, not yet past the first image that is not a regular file: a
      regular file lets it go on, anything else is where it stops. */
  lemma FirstRaiseStep(fs: FileSystem, imgs: ProductImages, i: nat)
    requires i < |imgs.names| && i <= FirstRaise(fs, imgs, 0)
    ensures imgs.PathOf(i) in fs.files ==> i + 1 <= FirstRaise(fs, imgs, 0)
    ensures imgs.PathOf(i) !in fs.files ==> FirstRaise(fs, imgs, 0) == i
  {
    FirstRaiseFrom(fs, imgs, 0, i);
  }

  /** The loop stops at the first raising upload: no image before it raises, and the loop
      succeeds exactly when it gets past the last image; otherwise it raises that image's
      exception. */
  lemma {:induction false} FirstRaiseStops(fs: FileSystem, imgs: ProductImages, outcomes: nat -> GitOutcome, i: nat)
    requires i <= |imgs.names|
    ensures var k := FirstRaise(fs, imgs, i);
            && (forall j :: i <= j < k ==> !UploadAt(fs, imgs, outcomes, j).Raised?)
            && (k < |imgs.names| ==> UploadAt(fs, imgs, outcomes, k).Raised?)
            && (CollectFrom(fs, imgs, outcomes, i).Success? <==> k == |imgs.names|)
            && (k < |imgs.names| ==>
                  CollectFrom(fs, imgs, outcomes, i) == Failure(UploadRaised(UploadAt(fs, imgs, outcomes, k).error)))
    decreases |imgs.names| - i
  {
    if i < |imgs.names| && imgs.PathOf(i) in fs.files {
      FirstRaiseStops(fs, imgs, outcomes, i + 1);
    }
  }

  /** An upload that does not raise puts its URL, if any, before those of the rest. */
  lemma CollectCons(s: seq<Upload>)
    requires s != [] && !s[0].Raised?
    ensures Collect(s) == After(if s[0].Uploaded? then [s[0].url] else [], Collect(s[1..]))
  {
  }

  lemma AfterAfter(a: seq<string>, b: seq<string>, r: Result<seq<string>, BatchError>)
    ensures After(a, After(b, r)) == After(a + b, r)
  {
    if r.Success? {
      assert a + (b + r.value) == (a + b) + r.value;
    }
  }

  /** An override, when truthy, replaces the lookup. */
  function ChooseFolder(tracking: Option<seq<SkuRow>>, sku: string, folderOverride: Option<string>)
    : Result<string, BatchError>
  {
    if Truthy(folderOverride) then Success(folderOverride.value) else FindProductFolder(tracking, sku)
  }

  function FoundImages(fs: FileSystem, tracking: Option<seq<SkuRow>>, sku: string,
                       folderOverride: Option<string>): Result<ProductImages, BatchError>
  {
    match ChooseFolder(tracking, sku, folderOverride)
    case Failure(e) => Failure(e)
    case Success(folder) => ProductImagesOf(fs, folder)
  }

  /** A truthy override is the product folder as given: the tracking file is never read,
      so whether it is missing or what it holds changes nothing. An empty override is
      falsy and the SKU is looked up as if none were given. */
  lemma OverrideSkipsLookup(fs: FileSystem, tracking: Option<seq<SkuRow>>, other: Option<seq<SkuRow>>,
                            sku: string, folderOverride: Option<string>)
    ensures Truthy(folderOverride) ==>
              && FoundImages(fs, tracking, sku, folderOverride) == ProductImagesOf(fs, folderOverride.value)
              && FoundImages(fs, other, sku, folderOverride) == FoundImages(fs, tracking, sku, folderOverride)
    ensures !Truthy(folderOverride) ==>
              FoundImages(fs, tracking, sku, folderOverride) == FoundImages(fs, tracking, sku, None)
  {
  }

  /** What `upload_product_images` returns or raises. */
  function BatchUrls(fs: FileSystem, tracking: Option<seq<SkuRow>>, sku: string,
                     folderOverride: Option<string>, outcomes: nat -> GitOutcome): Result<seq<string>, BatchError>
  {
    match FoundImages(fs, tracking, sku, folderOverride)
    case Failure(e) => Failure(e)
    case Success(imgs) => Collect(UploadResults(fs, imgs, outcomes))
  }

  /** When every image name the product folder lists is a regular file (not a directory
      named like one), no upload raises: the URLs are those of the images whose git commands
      all succeeded, in image order, at most one per image. Other directories, `Package4`
      among them, may list anything. */
  lemma BatchUrlsOfListedFiles(fs: FileSystem, tracking: Option<seq<SkuRow>>, sku: string,
                               folderOverride: Option<string>, outcomes: nat -> GitOutcome)
    requires FoundImages(fs, tracking, sku, folderOverride).Success?
    requires var folder := FoundImages(fs, tracking, sku, folderOverride).value.folder;
             forall n :: n in Listing(fs, folder) && IsImageName(n) ==> folder + "/" + n in fs.files
    ensures var imgs := FoundImages(fs, tracking, sku, folderOverride).value;
            var results := UploadResults(fs, imgs, outcomes);
            && BatchUrls(fs, tracking, sku, folderOverride, outcomes) == Success(Urls(results))
            && |Urls(results)| <= |imgs.names|
            && forall u :: u in Urls(results) <==>
                 exists i :: 0 <= i < |imgs.names| && outcomes(i).AllOk()
                   && u == ImageUrl(GithubUsername, RepoName, DestOf(imgs, i))
  {
    var imgs := FoundImages(fs, tracking, sku, folderOverride).value;
    var listing := Listing(fs, imgs.folder);
    assert imgs.names == ImagesOf(listing);
    forall i | 0 <= i < |imgs.names| ensures imgs.PathOf(i) in fs.files {
      ImagesOfSortedAndFiltered(listing);
      assert imgs.names[i] in listing;
    }
    UrlsOfFiles(fs, imgs, outcomes);
    forall u ensures u in Urls(UploadResults(fs, imgs, outcomes)) <==>
                 exists i :: 0 <= i < |imgs.names| && outcomes(i).AllOk()
                   && u == ImageUrl(GithubUsername, RepoName, DestOf(imgs, i))
    {
      UrlOfFiles(fs, imgs, outcomes, u);
    }
  }

  /** Uploading images that are all regular files raises nothing. */
  lemma UrlsOfFiles(fs: FileSystem, imgs: ProductImages, outcomes: nat -> GitOutcome)
    requires forall i :: 0 <= i < |imgs.names| ==> imgs.PathOf(i) in fs.files
    ensures Collect(UploadResults(fs, imgs, outcomes)) == Success(Urls(UploadResults(fs, imgs, outcomes)))
  {
    ResultsOfFiles(fs, imgs, outcomes);
  }

  /** Uploading images that are all regular files collects a URL exactly when it is that
      of an image whose git commands all succeeded. */
  lemma UrlOfFiles(fs: FileSystem, imgs: ProductImages, outcomes: nat -> GitOutcome, u: string)
    requires forall i :: 0 <= i < |imgs.names| ==> imgs.PathOf(i) in fs.files
    ensures u in Urls(UploadResults(fs, imgs, outcomes)) <==>
              exists i :: 0 <= i < |imgs.names| && outcomes(i).AllOk()
                && u == ImageUrl(GithubUsername, RepoName, DestOf(imgs, i))
  {
    var results := UploadResults(fs, imgs, outcomes);
    ResultsOfFiles(fs, imgs, outcomes);
    var ok := (i: nat) => outcomes(i).AllOk();
    var url := (i: nat) => if i < |imgs.names| then ImageUrl(GithubUsername, RepoName, DestOf(imgs, i)) else "";
    UrlsOfChosen(results, ok, url, u);
  }

  /** When each upload yields the URL `url(i)` if `ok(i)` and fails in git otherwise, the
      URLs collected are those of the uploads with `ok(i)`. */
  lemma UrlsOfChosen(results: seq<Upload>, ok: nat -> bool, url: nat -> string, u: string)
    requires forall i :: 0 <= i < |results| ==> results[i] == if ok(i) then Uploaded(url(i)) else GitFailed
    ensures u in Urls(results) <==> exists i :: 0 <= i < |results| && ok(i) && u == url(i)
  {
    UrlsMembers(results, u);
    if exists i :: 0 <= i < |results| && ok(i) && u == url(i) {
      var i :| 0 <= i < |results| && ok(i) && u == url(i);
      assert results[i] == Uploaded(u);
    }
  }

  /** When every image is a regular file, each upload either yields its URL or fails in git. */
  lemma ResultsOfFiles(fs: FileSystem, imgs: ProductImages, outcomes: nat -> GitOutcome)
    requires forall i :: 0 <= i < |imgs.names| ==> imgs.PathOf(i) in fs.files
    ensures forall i :: 0 <= i < |imgs.names| ==>
              UploadResults(fs, imgs, outcomes)[i] ==
                if outcomes(i).AllOk() then Uploaded(ImageUrl(GithubUsername, RepoName, DestOf(imgs, i)))
                else GitFailed
  {
  }

  /** The name each image is uploaded under, in image order. */
  function DestNames(imgs: ProductImages): seq<string>
  {
    seq(|imgs.names|, i requires 0 <= i < |imgs.names| => DestOf(imgs, i))
  }

  /** The uploader's git log after running, on top of `log`, the commands for the first
      `k` images, image after image; `dests` are their destination names. */
  function BatchGitLog(log: seq<GitCommand>, dests: seq<string>, outcomes: nat -> GitOutcome, k: nat): seq<GitCommand>
    requires k <= |dests|
  {
    if k == 0 then log else BatchGitLog(log, dests, outcomes, k - 1) + GitRun(dests[k - 1], outcomes(k - 1))
  }

  /** The staging directory after copying the first `k` images into it, each under its
      name in `dests`. */
  function BatchStaged(fs: FileSystem, staged: map<string, Bytes>, imgs: ProductImages, dests: seq<string>,
                       k: nat): map<string, Bytes>
    requires k <= |dests| == |imgs.names|
  {
    if k == 0 then staged
    else
      var before := BatchStaged(fs, staged, imgs, dests, k - 1);
      if imgs.PathOf(k - 1) in fs.files then before[dests[k - 1] := fs.files[imgs.PathOf(k - 1)]]
      else before
  }

  /** The log only grows: each image adds between one command (a failed `git add`) and
      three, and every image's `git add` of its staged path is in it. */
  lemma {:induction false} BatchGitLogAdds(log: seq<GitCommand>, dests: seq<string>,
                                           outcomes: nat -> GitOutcome, k: nat)
    requires k <= |dests|
    ensures var l := BatchGitLog(log, dests, outcomes, k);
            && |log| + k <= |l| <= |log| + 3 * k
            && l[..|log|] == log
            && forall i :: 0 <= i < k ==> Add(StagedPath(dests[i])) in l
  {
    if k > 0 {
      BatchGitLogAdds(log, dests, outcomes, k - 1);
      var before := BatchGitLog(log, dests, outcomes, k - 1);
      var run := GitRun(dests[k - 1], outcomes(k - 1));
      GitRunOrdered(dests[k - 1], outcomes(k - 1));
      assert BatchGitLog(log, dests, outcomes, k) == before + run;
      assert (before + run)[..|log|] == before[..|log|];
      forall i | 0 <= i < k ensures Add(StagedPath(dests[i])) in before + run {
        if i == k - 1 {
          assert (before + run)[|before|] == run[0];
        } else {
          var j :| 0 <= j < |before| && before[j] == Add(StagedPath(dests[i]));
          assert (before + run)[j] == before[j];
        }
      }
    }
  }

  /** Whether image `i` is a regular file copied under the name `d`. */
  predicate CopiedAs(fs: FileSystem, imgs: ProductImages, dests: seq<string>, i: nat, d: string)
    requires i < |dests| == |imgs.names|
  {
    imgs.PathOf(i) in fs.files && dests[i] == d
  }

  /** After the first `k` copies the staging directory holds what it held before plus the
      destination of every image that is a regular file. */
  lemma {:induction false} BatchStagedKeys(fs: FileSystem, staged: map<string, Bytes>, imgs: ProductImages,
                                           dests: seq<string>, k: nat, d: string)
    requires k <= |dests| == |imgs.names|
    ensures d in BatchStaged(fs, staged, imgs, dests, k) <==>
              d in staged || exists i :: 0 <= i < k && CopiedAs(fs, imgs, dests, i, d)
  {
    if k > 0 {
      BatchStagedKeys(fs, staged, imgs, dests, k - 1, d);
      assert d in BatchStaged(fs, staged, imgs, dests, k) <==>
               d in BatchStaged(fs, staged, imgs, dests, k - 1) || CopiedAs(fs, imgs, dests, k - 1, d);
      if exists i :: 0 <= i < k && CopiedAs(fs, imgs, dests, i, d) {
        var i :| 0 <= i < k && CopiedAs(fs, imgs, dests, i, d);
        if i < k - 1 {
          assert exists i' :: 0 <= i' < k - 1 && CopiedAs(fs, imgs, dests, i', d);
        }
      }
      if exists i :: 0 <= i < k - 1 && CopiedAs(fs, imgs, dests, i, d) {
        var i :| 0 <= i < k - 1 && CopiedAs(fs, imgs, dests, i, d);
        assert 0 <= i < k && CopiedAs(fs, imgs, dests, i, d);
      }
    }
  }

  /** A destination holds the contents of the last image copied under that name. */
  lemma {:induction false} BatchStagedLastWins(fs: FileSystem, staged: map<string, Bytes>, imgs: ProductImages,
                                               dests: seq<string>, k: nat, i: nat)
    requires i < k <= |dests| == |imgs.names|
    requires imgs.PathOf(i) in fs.files
    requires forall j :: i < j < k ==> !CopiedAs(fs, imgs, dests, j, dests[i])
    ensures dests[i] in BatchStaged(fs, staged, imgs, dests, k)
    ensures BatchStaged(fs, staged, imgs, dests, k)[dests[i]] == fs.files[imgs.PathOf(i)]
  {
    if i < k - 1 {
      BatchStagedLastWins(fs, staged, imgs, dests, k - 1, i);
      assert !CopiedAs(fs, imgs, dests, k - 1, dests[i]);
    }
  }

  /** `upload_product_images`: an uploader is created only when there is an image to
      upload; the images are uploaded one after another, each under its stem, and the
      URLs of the successful ones are collected in order. `staged` is what the staging
      directory holds beforehand. */
  method UploadProductImages(fs: FileSystem, tracking: Option<seq<SkuRow>>, sku: string,
                             folderOverride: Option<string>, staged: map<string, Bytes>,
                             outcomes: nat -> GitOutcome)
    returns (r: Result<seq<string>, BatchError>, uploader: ImageUploader?, ghost reached: nat)
    ensures r == BatchUrls(fs, tracking, sku, folderOverride, outcomes)
    ensures uploader != null <==>
              FoundImages(fs, tracking, sku, folderOverride).Success?
              && FoundImages(fs, tracking, sku, folderOverride).value.names != []
    ensures uploader != null ==>
              fresh(uploader) && uploader.repoName == RepoName && uploader.githubUsername == GithubUsername
    ensures uploader != null ==>
              var imgs := FoundImages(fs, tracking, sku, folderOverride).value;
              && reached == FirstRaise(fs, imgs, 0)
              && uploader.gitLog == BatchGitLog([], DestNames(imgs), outcomes, reached)
              && uploader.images == BatchStaged(fs, staged, imgs, DestNames(imgs), reached)
  {
    var productFolder: string;
    if Truthy(folderOverride) {
      productFolder := folderOverride.value;
    } else {
      var found := FindProductFolder(tracking, sku);
      if found.Failure? {
        return Failure(found.error), null, 0;
      }
      productFolder := found.value;
    }
    assert ChooseFolder(tracking, sku, folderOverride) == Success(productFolder);
    var images := GetProductImages(fs, productFolder);
    assert FoundImages(fs, tracking, sku, folderOverride) == images;
    if images.Failure? {
      return Failure(images.error), null, 0;
    }
    var imgs := images.value;
    if |imgs.names| == 0 {
      return Success([]), null, 0;
    }
    uploader := new ImageUploader(RepoName, GithubUsername, staged);
    r, reached := UploadAll(uploader, fs, imgs, outcomes);
    CollectFromUploads(fs, imgs, outcomes, 0);
  }

  /** The upload loop of `upload_product_images`: the images in order, each under its
      stem; an exception ends the loop, a git failure skips the image. `reached` is the
      image it stopped at, or the number of images; the copies and commands of the images
      before it stay. */
  method UploadAll(uploader: ImageUploader, fs: FileSystem, imgs: ProductImages, outcomes: nat -> GitOutcome)
    returns (r: Result<seq<string>, BatchError>, ghost reached: nat)
    requires uploader.repoName == RepoName && uploader.githubUsername == GithubUsername
    modifies uploader
    ensures r == CollectFrom(fs, imgs, outcomes, 0)
    ensures reached == FirstRaise(fs, imgs, 0)
    ensures uploader.gitLog == BatchGitLog(old(uploader.gitLog), DestNames(imgs), outcomes, reached)
    ensures uploader.images == BatchStaged(fs, old(uploader.images), imgs, DestNames(imgs), reached)
  {
    ghost var log0 := uploader.gitLog;
    ghost var staged := uploader.images;
    ghost var dests := DestNames(imgs);
    var urls: seq<string> := [];
    ghost var all := CollectFrom(fs, imgs, outcomes, 0);
    if all.Success? {
      assert [] + all.value == all.value;
    }
    for i := 0 to |imgs.names|
      invariant all == After(urls, CollectFrom(fs, imgs, outcomes, i))
      invariant i <= FirstRaise(fs, imgs, 0)
      invariant uploader.gitLog == BatchGitLog(log0, dests, outcomes, i)
      invariant uploader.images == BatchStaged(fs, staged, imgs, dests, i)
    {
      var url := UploadNext(uploader, fs, imgs, outcomes, i, urls, log0, staged, dests);
      if url.Raised? {
        return Failure(UploadRaised(url.error)), i;
      }
      if url.Uploaded? {
        urls := urls + [url.url];
      }
    }
    assert urls + [] == urls;
    r, reached := Success(urls), |imgs.names|;
  }

  /** One turn of the upload loop: upload the `i`-th image under its stem. It raises exactly
      at the first image that is not a regular file, leaving the uploader's log and `images/`
      as they were and ending the loop with that exception; otherwise the log and `images/`
      move on to those after `i + 1` images, and the image's URL, if any, joins `urls`. */
  method UploadNext(uploader: ImageUploader, fs: FileSystem, imgs: ProductImages, outcomes: nat -> GitOutcome,
                    i: nat, ghost urls: seq<string>,
                    ghost log0: seq<GitCommand>, ghost staged: map<string, Bytes>, ghost dests: seq<string>)
    returns (url: Upload)
    requires i < |imgs.names| && i <= FirstRaise(fs, imgs, 0) && dests == DestNames(imgs)
    requires uploader.repoName == RepoName && uploader.githubUsername == GithubUsername
    requires uploader.gitLog == BatchGitLog(log0, dests, outcomes, i)
    requires uploader.images == BatchStaged(fs, staged, imgs, dests, i)
    modifies uploader
    ensures url == UploadAt(fs, imgs, outcomes, i)
    ensures url.Raised? <==> imgs.PathOf(i) !in fs.files
    ensures url.Raised? ==>
              && FirstRaise(fs, imgs, 0) == i
              && After(urls, CollectFrom(fs, imgs, outcomes, i)) == Failure(UploadRaised(url.error))
              && uploader.gitLog == old(uploader.gitLog) && uploader.images == old(uploader.images)
    ensures !url.Raised? ==>
              && i + 1 <= FirstRaise(fs, imgs, 0)
              && After(urls, CollectFrom(fs, imgs, outcomes, i)) ==
                   After(if url.Uploaded? then urls + [url.url] else urls, CollectFrom(fs, imgs, outcomes, i + 1))
              && uploader.gitLog == BatchGitLog(log0, dests, outcomes, i + 1)
              && uploader.images == BatchStaged(fs, staged, imgs, dests, i + 1)
  {
    url := uploader.UploadImage(fs, imgs.PathOf(i), Some(Stem(imgs.names[i])), outcomes(i));
    FirstRaiseStep(fs, imgs, i);
    if !url.Raised? {
      var u := if url.Uploaded? then [url.url] else [];
      AfterAfter(urls, u, CollectFrom(fs, imgs, outcomes, i + 1));
      assert urls + u == if url.Uploaded? then urls + [url.url] else urls;
      assert imgs.PathOf(i) in fs.files;
      assert dests[i] == DestName(imgs.PathOf(i), Some(Stem(imgs.names[i])));
    }
  }
}
