# Product image batch uploader, modelled in Dafny

This project models the image-publishing tool of the `bey-images` repository in Dafny:

- `upload_image.py`: the single-image uploader. `GitHubImageUploader.upload_image` copies an image into the staging clone's `images/` directory. It then runs `git add`, `git commit` and `git push`, and returns the raw-content URL of the pushed file.
- `batch_upload_product.py`: the batch driver. It looks up a product's folder from its SKU in the tracking CSV and lists the product's images in name order. It uploads each image under its stem and collects the URLs. It appends one row with the SKU and the JSON list of URLs to the results CSV.

`upload_image.py` becomes the `Uploader` module, and `batch_upload_product.py` becomes `Batch`, `UrlsCsv` and `Driver`. The other six modules are the model's own. They stand for the Python built-ins and standard-library parts the scripts rely on. Among them, `Json` models the library call `json.dumps(urls)` on line 102 of `batch_upload_product.py`.

| file | module | what it holds |
|---|---|---|
| `outcomes.dfy` | `Outcomes` | `Option`, `Result`, and Python truthiness of an optional string |
| `text.dfy` | `Text` | `str.upper()` on ASCII, `str.endswith`, `str.rfind`, and the code-point order `sorted` uses on names |
| `paths.dfy` | `PurePaths` | the parts of `pathlib` the scripts use: `.name`, `.suffix`, `.stem` and `/` |
| `files.dfy` | `Files` | the disk: regular files with their bytes, directories with their listings |
| `sort.dfy` | `NameSort` | `sorted(..., key=name)` as a stable insertion sort |
| `uploader.dfy` | `Uploader` | destination names, git commands, URLs, and the `ImageUploader` class |
| `batch.dfy` | `Batch` | SKU lookup, folder resolution, image enumeration, and the upload loop |
| `json.dfy` | `Json` | `json.dumps` of a list of strings, and a decoder for what it writes |
| `urls_csv.dfy` | `UrlsCsv` | `save_urls_to_csv` over the results file, kept record by record |
| `run.dfy` | `Driver` | `main`: arguments, exit status, and the results file afterwards |

Modelling choices:

- **Git.** Each git command's exit status is an input. `GitOutcome(addOk, commitOk, pushOk)` gives it for one image, and `outcomes(i)` gives it for the `i`-th image of a batch.
- **The uploader.** `ImageUploader` is a class. Its `images` field is a map that stands for the clone's `images/` directory. Its `gitLog` field lists the git commands run so far. `UploadImage` updates both in place.
- **Results file.** `ResultsFile` is a class whose record sequence `SaveUrlsToCsv` extends.
- **Methods proved against functions.** The imperative parts (`GetProductImages`, `UploadAll`, `UploadImage`, `SaveUrlsToCsv` and `RunBatch`) are each proved equal to a function of their inputs. The lemmas are stated about those functions.
- **The glob.** The image glob is case-sensitive, as on POSIX. It keeps listing order and also matches directories whose names end in an image extension. Uploading such a directory raises from the copy, which ends the batch.
- **Reading a CSV.** The reader follows `csv.DictReader`: the first record is the header, even when it is not a header. Blank records are skipped. A short row gives `None` for a missing column. `row['product_sku']` raises only when a data row exists and the header lacks that column.

## Model

| member | source | states |
|---|---|---|
| Text.AsciiUpper | batch_upload_product.py:134 | the upper-cased SKU has the argument's length, and each character is the argument's character with ASCII `a`-`z` mapped to `A`-`Z` |
| Text.AsciiUpperIdempotent | batch_upload_product.py:134 | an upper-cased SKU holds no lower-case ASCII letter, and upper-casing it again changes nothing |
| Text.AsciiUpperNeverLower | batch_upload_product.py:134 | a string containing a lower-case ASCII letter is never the upper-casing of any argument |
| Text.NameLeTotal | batch_upload_product.py:45 | any two file names are comparable in the sort order |
| Text.NameLeTransitive | batch_upload_product.py:45 | the sort order on names is transitive |
| Text.NameLeAntisymmetric | batch_upload_product.py:45 | two names each at most the other are equal |
| Text.RFind | batch_upload_product.py:97-99 | the last index holding the sought item, or -1 when none does: the column a key names in a header, the later one when the key repeats |
| PurePaths.Name | upload_image.py:51 | `Path(p).name` holds no separator and is the tail of `p` |
| PurePaths.SuffixDot | upload_image.py:46 | a suffix starts at a dot that is neither the first nor the last character of the name, or there is none |
| PurePaths.StemSuffixSplit | upload_image.py:46-48 | a name is its stem followed by its suffix; a non-empty suffix is a dot plus at least one character, with no other dot or separator; a non-empty name has a non-empty stem |
| PurePaths.NameOfBare | batch_upload_product.py:79 | a string without a separator is its own `.name` |
| PurePaths.NameOfChild | batch_upload_product.py:31 | `Path(d) / n` has final component `n` |
| PurePaths.SuffixOfAppended | upload_image.py:48 | appending the source's suffix to a custom name gives a name whose suffix is exactly that suffix |
| PurePaths.SplitAtSuffix | upload_image.py:46-48 | a bare name plus a suffix splits back into that name as stem and that suffix |
| NameSort.SortedPairwise | batch_upload_product.py:45 | in a sorted list every name is at most every later name |
| NameSort.Insert | batch_upload_product.py:45 | inserting into a sorted list keeps it sorted and adds exactly that one name |
| NameSort.SortByName | batch_upload_product.py:45 | the result is sorted by name and is a permutation of the input |
| Uploader.DestNameCases | upload_image.py:45-51 | no custom name or an empty one gives the source's name; a custom name with a suffix is used unchanged; one without a suffix gets the source's suffix appended |
| Uploader.DestName | upload_image.py:45-51 | defines the destination name; stated by `DestNameCases`, `DestNameKeepsFileType` and `BatchDestName` |
| Uploader.CommitMessage | upload_image.py:62 | defines the commit message; stated by `CommitMessageInjective` |
| Uploader.ImageUrl | upload_image.py:73 | defines the returned URL; stated by `ImageUrlNamesFile` |
| Uploader.GitRun | upload_image.py:59-70 | defines the git commands one upload runs; stated by `GitRunOrdered` and `BatchGitLogAdds` |
| Uploader.UploadResult | upload_image.py:39-74 | defines what `upload_image` returns or raises; stated by `UploadResultCases`, and `ImageUploader.UploadImage` is proved equal to it |
| Uploader.DestNameKeepsFileType | upload_image.py:45-49 | with a custom name, the destination's suffix is the custom name's own suffix, else the source's: the file type is kept |
| Uploader.BatchDestName | batch_upload_product.py:78-79 | the batch uploads `<folder>/<n>` under its stem; the destination is `n` itself exactly when the stem has no suffix of its own, and otherwise the bare stem |
| Uploader.DottedStemLosesExtension | batch_upload_product.py:78-79 | `a.b.jpg` is uploaded as `a.b`, so its extension is dropped |
| Uploader.ImageUrlNamesFile | upload_image.py:73 | the URL's final component is the destination name, and for one account and repository different names give different URLs |
| Uploader.CommitMessageInjective | upload_image.py:62 | the commit message `Add image: <dest>` determines the destination name |
| Uploader.GitRunOrdered | upload_image.py:59-70 | the commands run are a non-empty prefix of add, commit, push; commit runs iff add succeeded, and push runs iff add and commit did |
| Uploader.UploadResultCases | upload_image.py:39-74 | a missing source raises `FileNotFoundError` first; a URL comes back iff the source is a regular file and all three git commands succeed, and that URL is the formatted one |
| Uploader.ImageUploader.constructor | upload_image.py:14-26 | records repository and account; `images/` keeps what it held and no git command has run |
| Uploader.ImageUploader.Publish | upload_image.py:53-74 | the copy overwrites `images/<dest>`; the URL comes back iff all three git commands succeed, and the log grows by exactly the commands run |
| Uploader.ImageUploader.UploadImage | upload_image.py:28-74 | returns the result `UploadResult` specifies; a raise leaves `images/` and the git log as they were; otherwise the copy overwrites `images/<dest>` before any git command, stays after a git failure, and the log grows by exactly the commands run |
| Batch.FirstMatch | batch_upload_product.py:19-21 | the index of the first record whose SKU equals the argument exactly, or none when no record matches |
| Batch.FindProductFolder | batch_upload_product.py:12-23 | a missing tracking file raises before any record is read; the lookup succeeds iff some record carries the SKU, and then returns the folder of the first such record; otherwise it raises "not found" |
| Batch.FindIgnoresLaterRows | batch_upload_product.py:19-21 | records after the first match, even ones with the same SKU, never change the answer |
| Batch.ResolveBareFolder | batch_upload_product.py:28-31 | a bare, non-empty folder name resolves to `Package4/<name>`, whose final component is the name |
| Batch.ResolveFolder | batch_upload_product.py:28-31 | defines the folder path: a name holding `/` is used as given, a bare one is joined under `Package4`; stated by `ResolveBareFolder` |
| Batch.ChooseFolder | batch_upload_product.py:55-58 | defines the folder choice: a truthy override as given, else the lookup; stated by `OverrideSkipsLookup` |
| Batch.OverrideSkipsLookup | batch_upload_product.py:55-62 | with a truthy override the images are those of the override folder whatever the tracking file holds, even when it is missing; an empty override is the same as none |
| Batch.FoundImages | batch_upload_product.py:54-62 | defines the images `upload_product_images` works on: the chosen folder's, or the error of the choice or of the enumeration; stated by `OverrideSkipsLookup` and `ImagesOfSortedAndFiltered` |
| Batch.PatternsFollowExtensions | batch_upload_product.py:37-42 | the eight globs are each extension followed by its upper-cased form, in the loop's order |
| Batch.Glob | batch_upload_product.py:41-42 | a glob returns exactly the listed names that end in the pattern's suffix |
| Batch.GlobAllAppend | batch_upload_product.py:40-42 | `extend`ing with the globs of two pattern lists is globbing with their concatenation |
| Batch.GlobAllMembers | batch_upload_product.py:40-42 | a name is collected iff it is listed and some pattern matches it |
| Batch.GlobAll | batch_upload_product.py:40-42 | defines the `extend` of one glob per pattern, in pattern order; stated by `GlobAllAppend` and `GlobAllMembers` |
| Batch.ImagesOf | batch_upload_product.py:37-45 | defines the globbed names sorted by name; stated by `ImagesOfSortedAndFiltered` and `ImagesOfDistinct` |
| Batch.ProductImagesOf | batch_upload_product.py:25-45 | defines `get_product_images`: "not found" for a missing folder, else `ImagesOf` its listing; `GetProductImages` is proved equal to it |
| Batch.IsImageNameByExtension | batch_upload_product.py:37-42 | a name passes the filter iff it ends in some extension, either as written or upper-cased |
| Batch.MixedCaseExtensionExcluded | batch_upload_product.py:37-42 | `photo.Png` is not matched, but `photo.PNG` is |
| Batch.ImagesOfSortedAndFiltered | batch_upload_product.py:37-45 | the images returned are in non-decreasing name order, and are exactly the listed names that pass the filter |
| Batch.PatternsExclusive | batch_upload_product.py:37-42 | no name matches two of the eight globs |
| Batch.ImagesOfDistinct | batch_upload_product.py:40-45 | on a listing without repeats, no image is returned twice |
| Batch.GlobStep | batch_upload_product.py:40-42 | one turn of the extension loop adds the glob of the extension, then that of its upper-cased form |
| Batch.GlobImages | batch_upload_product.py:38-42 | the extension loop collects the globs of the eight patterns, in the loop's order |
| Batch.GetProductImages | batch_upload_product.py:25-45 | returns what `ProductImagesOf` specifies: "not found" for a missing folder, else the filtered, sorted image names |
| Batch.Urls | batch_upload_product.py:74-87 | at most one URL per upload result |
| Batch.UrlsAppend | batch_upload_product.py:74-87 | the URLs of two runs of uploads are those of the first run, then those of the second |
| Batch.UrlsMembers | batch_upload_product.py:81-82 | a URL is collected iff some upload returned it |
| Batch.FailureSkipped | batch_upload_product.py:81-85 | a failed upload adds nothing and does not stop the uploads after it |
| Batch.Collect | batch_upload_product.py:73-87 | the loop succeeds iff no upload raises, and then yields the URLs in order; otherwise it raises the first exception |
| Batch.UploadsFrom | batch_upload_product.py:75-79 | one result per remaining image, in enumeration order, each the upload of that image under its stem |
| Batch.BatchUrlsOfListedFiles | batch_upload_product.py:47-87 | when every image name the product folder lists is a regular file (other directories may list subfolders), nothing raises; the URLs are those of exactly the images whose git commands all succeeded, in image order, at most one per image |
| Batch.BatchUrls | batch_upload_product.py:47-87 | defines what `upload_product_images` returns or raises; stated by `BatchUrlsOfListedFiles`, `Collect` and `UploadProductImages` |
| Batch.UrlsOfFiles | batch_upload_product.py:73-87 | uploading only regular files raises nothing, so the loop yields the URLs of all the results |
| Batch.UrlOfFiles | batch_upload_product.py:73-87 | uploading regular files collects a URL iff it is the URL of some image whose git commands all succeeded |
| Batch.ResultsOfFiles | batch_upload_product.py:79-85 | each upload of a regular file returns its URL when all git commands succeed, else `None` |
| Batch.BatchGitLogAdds | batch_upload_product.py:75-79 | over a batch the git log only grows, by one to three commands per image, and holds each image's `git add` |
| Batch.BatchStagedKeys | batch_upload_product.py:75-79 | after the loop, `images/` holds what it held before plus the destination of every image that is a regular file |
| Batch.BatchStagedLastWins | upload_image.py:54-55 | a destination holds the bytes of the last image copied under that name |
| Batch.UploadProductImages | batch_upload_product.py:47-87 | returns or raises what `BatchUrls` specifies; an uploader is created iff images were found, and then its log and `images/` are those of the images before the first one that raises, or of all of them |
| Batch.UploadAll | batch_upload_product.py:73-87 | the loop returns its outcome read image by image (`CollectFrom` from the first image); it stops at the first image that is not a regular file (`FirstRaise`), and the uploader's log and `images/` are then those of every earlier image, in order, with the copies and pushes already done kept |
| Batch.UploadNext | batch_upload_product.py:75-85 | one turn uploads the image under its stem and returns that image's result; it raises iff the image is not a regular file, and then the log and `images/` are unchanged and the loop ends with that exception; otherwise they move on to those after this image and its URL, if any, joins those collected |
| Batch.CollectFromUploads | batch_upload_product.py:73-87 | reading the uploads one image at a time, as the loop does, gives what `Collect` gives over them in image order |
| Batch.FirstRaiseStops | batch_upload_product.py:73-87 | no upload before `FirstRaise` raises, the one there does, and the loop succeeds iff it passes the last image; otherwise it raises that image's exception |
| Batch.FirstRaiseStep | batch_upload_product.py:75-79 | while the loop has not reached the first non-file image, a regular file lets it go on and anything else is where it stops |
| Json.Hex4RoundTrip | batch_upload_product.py:102 | the four hexadecimal digits of a 16-bit value read back as that value |
| Json.EscapeCharPrintable | batch_upload_product.py:102 | every character is written as printable ASCII |
| Json.EscapeChar | batch_upload_product.py:102 | defines how `json.dumps` writes one character: short escapes, `\uXXXX` below U+0020 and above U+007E, surrogate pairs beyond U+FFFF; stated by `EscapeCharPrintable` and `EscapeCharScans` |
| Json.ArrayOf | batch_upload_product.py:102 | defines `json.dumps` of a list of strings; stated by `ArrayOfPrintable` and `ArrayRoundTrip` |
| Json.ArrayOfPrintable | batch_upload_product.py:102 | the JSON list is printable ASCII and opens with `[`, so the CSV field holds no line break or non-ASCII character |
| Json.HighSurrogate | batch_upload_product.py:102 | the first half of a character beyond the Basic Multilingual Plane is a high surrogate, 0xD800 to 0xDBFF |
| Json.LowSurrogate | batch_upload_product.py:102 | the second half is a low surrogate, 0xDC00 to 0xDFFF |
| Json.SurrogatePair | batch_upload_product.py:102 | a character beyond the Basic Multilingual Plane is written as a high surrogate and a low surrogate that recombine into it |
| Json.EscapeCharScans | batch_upload_product.py:102 | every written character, whether short escape, `\uXXXX`, surrogate pair or as is, reads back as itself |
| Json.EscapedScans | batch_upload_product.py:102 | an escaped string followed by the closing quote reads back as that string, and the text after it is left |
| Json.ItemsScan | batch_upload_product.py:102 | the items of a non-empty list, separated by `", "` and closed by `]`, read back as that list |
| Json.ArrayRoundTrip | batch_upload_product.py:102 | what `json.dumps` writes for a list of URLs decodes to that list |
| UrlsCsv.SaveEffect | batch_upload_product.py:89-119 | defines what `save_urls_to_csv` returns or raises and the file afterwards; stated by `SaveAppendsRow`, `SaveFailureChangesNothing`, `SaveOnOwnFile` and `SavesFromNoFile` |
| UrlsCsv.DataRecords | batch_upload_product.py:97-99 | the rows read are exactly the non-blank records |
| UrlsCsv.RecordedSkus | batch_upload_product.py:95-99 | reading raises iff there is a data row and the header lacks `product_sku`; an empty file or one without data rows gives the empty set; otherwise the set holds exactly each row's value in that column |
| UrlsCsv.ResultsFile.constructor | batch_upload_product.py:91-92 | the results file starts as given, existing or not |
| UrlsCsv.ResultsFile.SaveUrlsToCsv | batch_upload_product.py:89-121 | does what `SaveEffect` specifies: a failed read raises and changes nothing; otherwise it appends the header when the file is new, then the row, and returns whether the SKU was already recorded |
| UrlsCsv.SaveAppendsRow | batch_upload_product.py:102-119 | a save keeps every earlier record; it writes the header iff the file was new; the SKU and URL row comes last; the JSON field decodes to the URLs |
| UrlsCsv.SaveFailureChangesNothing | batch_upload_product.py:95-99 | a save raises iff the file exists and its SKUs cannot be read, and then the file is unchanged |
| UrlsCsv.Rows | batch_upload_product.py:119 | one row per save, each the SKU and JSON list of that save |
| UrlsCsv.RowsSkus | batch_upload_product.py:99 | the SKU column of the rows written holds exactly their SKUs |
| UrlsCsv.OwnFileSkus | batch_upload_product.py:95-119 | a file holding only what this function wrote reads back as exactly the SKUs saved |
| UrlsCsv.SaveOnOwnFile | batch_upload_product.py:92-119 | one more save on such a file warns iff the SKU was saved before, and appends its row |
| UrlsCsv.SavesFromNoFile | batch_upload_product.py:92-119 | from no file, a sequence of saves writes the header once, first, then one row per save in order; a save warns iff an earlier save recorded its SKU |
| UrlsCsv.EmptyFileNeverGetsHeader | batch_upload_product.py:92-110 | an existing empty file gets no header: its first row is read as the header, and the third save raises |
| Driver.RunEffect | batch_upload_product.py:123-159 | defines the exit status of `main` and the results file afterwards; stated by `RunExitStatus`, `RunRecordsRow` and `SkuCaseInsensitive` |
| Driver.RunBatch | batch_upload_product.py:123-159 | `main` exits with the status `RunEffect` specifies and leaves the results file as `RunEffect` specifies |
| Driver.RunExitStatus | batch_upload_product.py:123-159 | the status is 0 or 1, and 0 iff a SKU was given, the upload produced a URL, and the results file could be read; any failing run leaves the file untouched |
| Driver.RunRecordsRow | batch_upload_product.py:134-145 | a successful run appends, last, one row with the upper-cased SKU and the non-empty URL list |
| Driver.SkuCaseInsensitive | batch_upload_product.py:134 | two runs whose SKU arguments upper-case alike do the same thing |

## Left out

- GridBagLayoutExample2.java is not part of this model. It is Swing widget layout with no bearing on the upload logic.
- Printing: progress lines, warnings and error messages. The duplicate-SKU warning is kept as the boolean that `SaveUrlsToCsv` returns.
- Real `git` subprocesses, the network push and the remote configuration. Each command's exit status is an input.
- `mkdir` of `images/` and the file metadata `shutil.copy2` copies. Only file contents are modelled.
- The location of the staging clone (`Path(__file__).parent`). `images/` is a field of the uploader.
- The `main` of `upload_image.py`: placeholder-username check, argument handling and printing. It only drives `upload_image`, which is modelled.
- `pathlib` normalisation: repeated or trailing separators, `.` components and absolute paths. Paths are plain strings joined with `/`.
- A custom name containing `/`. The batch passes a stem, which never contains one.
- Case-insensitive globbing on Windows. Matching is case-sensitive, as on POSIX.
- Symbolic links, permission errors, and a copy onto a destination that is a directory. Any other I/O error is not modelled either.
- The text layer of CSV: quoting, line endings, and fields with embedded line breaks. Files are sequences of records.
- Tracking files whose header lacks a column, and short rows. The tracking file is given as `(sku, product_folder)` records, or as absent, so these cases are not modelled:
  - A header without `sku` raises `KeyError` at the first data row. With no data rows, the lookup raises the "not found" `ValueError` instead.
  - A header without `product_folder` raises `KeyError` only when a row matches the SKU. Otherwise the lookup raises the "not found" `ValueError`.
  - A row shorter than the header reads `None` for its missing fields. If such a row matches and lacks `product_folder`, the lookup returns `None`, and `get_product_images` raises `TypeError` at the `'/' in product_folder` test.
- A missing `PROJECT_DATA` directory, or a results path that is a directory. Opening the results file for appending is taken to succeed.
- Driver.RunBatch: the staging directory and git log after the run are left out of its contract. The copies under `images/` and the pushed commits outlive `main`; `Batch.UploadProductImages` states them.
- Json.EscapeChar: a Dafny `char` cannot hold a lone surrogate code point. A file name that is not valid UTF-8 decodes in Python to a string holding U+DC80 to U+DCFF, which can reach the URL through the destination name; `json.dumps` writes such a character as `\udcXX`. The model has no such names.
- Text.AsciiUpper: differs from `str.upper()` for SKUs with non-ASCII letters. Python maps `é` to `É` and `ß` to `SS`, which changes the length. The model upper-cases only `a` to `z` and keeps every other character.
- Driver.RunBatch: a `KeyboardInterrupt` or any other exception outside `Exception` is not modelled.
