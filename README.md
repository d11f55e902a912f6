# S3 file-control helpers, modelled in Dafny

This project models the deterministic part of `aws_s3_controller/s3_file_control_utils.py`.
That part decides which objects and files the helpers touch and under which keys and names:

- prefix normalisation;
- the bucket scan (`scan_files_in_bucket_by_regex`) and the local scan (`scan_files_including_regex`);
- the key rules of upload, CSV/Excel reads, relocation and sub-folder creation;
- the download, upload and relocate loops, with their effects on the object store;
- the dataset prefix of `locate_menu_datasets_from_s3_to_ec2web`;
- the row selection and file naming of `merge_timeseries_csv_files`.

The object store, the file system, `re`, pandas and the clock are inputs:

- A listing is a sequence of pages, each with or without `Contents`, or a failure.
- A directory is the sequence of its entry names.
- A pattern is a pair: does `re` accept it, and does it match somewhere in a given string.
- A remote call (download, upload, copy, delete, put) is an `Event` in a log. A predicate
  `accepts` says whether the client raised on it.
- A CSV or Excel read is a function `fetch(bucket, key)`. It yields the parsed table, or `None`
  when the client or the parser raised.
- Dates are parsed to day numbers by a `parse` parameter and printed by a `format` parameter.
  `today` and `yesterday` are parameters too.

A Python call ends in one of three ways, modelled by `Python.Py`: a value, `None`, or an
exception. The exception classes are collapsed into `Python.Exc`.

Modules, one file each:

| file | module | what it models |
|---|---|---|
| python.dfy | Python | call outcomes, optional arguments, truthiness, list indexing |
| paths.dfy | Paths | prefix normalisation, `os.path.join`, basename / `split('/')[-1]` |
| strings.dfy | Strings | `str.find`, `replace(old, new, 1)`, `split(sep)[0]`, `replace(c, '')` |
| order.dfy | Order | `sorted` on strings |
| keys.dfy | Keys | the key rules |
| bucket_scan.dfy | BucketScan | the bucket scanner |
| local_scan.dfy | LocalScan | the directory scanner |
| transfers.dfy | Transfers | download, upload, relocate, copy, move and create-subfolder |
| tabular.dfy | Tabular | CSV and Excel reads, by key and by regex |
| datasets.dfy | Datasets | dataset prefix and time-series merge |

## Model

| member | source | states |
|---|---|---|
| Paths.NormalizePrefix | aws_s3_controller/s3_file_control_utils.py:30 | A non-empty prefix gets exactly one '/' appended unless it already ends with one. The empty prefix stays empty. The result always extends the input. |
| Paths.NormalizeIdempotent | aws_s3_controller/s3_file_control_utils.py:30 | Normalising twice is normalising once. |
| Paths.JoinSpec | aws_s3_controller/s3_file_control_utils.py:96 | `os.path.join(a, b)` ends with `b`. An absolute `b` is the whole result; otherwise `b` follows the normalised `a`. |
| Paths.Join | aws_s3_controller/s3_file_control_utils.py:121 | `os.path.join` of two parts; its contract is carried by Paths.JoinSpec and Paths.JoinName. |
| Paths.LastSegment | aws_s3_controller/s3_file_control_utils.py:94 | The file name taken from a key contains no '/'. |
| Paths.LastSegmentSuffix | aws_s3_controller/s3_file_control_utils.py:43 | The last segment is a suffix of the key, and it is the whole key or follows a '/'. |
| Paths.LastSegmentUnique | aws_s3_controller/s3_file_control_utils.py:43 | Any slash-free suffix that is the whole key or follows a '/' is the last segment. |
| Paths.LastSegmentOfJoin | aws_s3_controller/s3_file_control_utils.py:96 | Joining a folder with a plain name and taking the basename gives the name back. |
| Paths.JoinName | aws_s3_controller/s3_file_control_utils.py:121 | Joining a folder with a plain name gives the normalised folder followed by the name. |
| Python.PyIndex | aws_s3_controller/s3_file_control_utils.py:222 | `s[i]` raises IndexError exactly outside `-len(s) <= i < len(s)`. Negative indices count from the end. |
| Python.LastIndex | aws_s3_controller/s3_file_control_utils.py:266 | `s[-1]` is the last element, and raises IndexError exactly on the empty list. |
| Strings.FindFrom | aws_s3_controller/s3_file_control_utils.py:297 | The position found is an occurrence at or after the start, with none between the start and it. |
| Strings.FindFirst | aws_s3_controller/s3_file_control_utils.py:297 | The first occurrence, or none when the pattern does not occur. |
| Strings.FindFirstLeftmost | aws_s3_controller/s3_file_control_utils.py:297 | An occurrence with none before it is the one found. |
| Strings.ReplaceFirst | aws_s3_controller/s3_file_control_utils.py:297 | `str.replace(old, new, 1)`; its contract is carried by Strings.ReplaceFirstAt and Strings.ReplaceFirstAbsent. |
| Strings.ReplaceFirstAt | aws_s3_controller/s3_file_control_utils.py:297 | `replace(old, new, 1)` swaps only the leftmost occurrence and keeps everything else, later occurrences included. |
| Strings.ReplaceFirstAbsent | aws_s3_controller/s3_file_control_utils.py:297 | A string without the pattern is left unchanged. |
| Strings.BeforeFirst | aws_s3_controller/s3_file_control_utils.py:422-423 | `s.split(sep)[0]` is a prefix of `s` without `sep` in it. It is all of `s`, or `sep` follows it. |
| Strings.RemoveChar | aws_s3_controller/s3_file_control_utils.py:383-384 | `s.replace('-', '')` has no '-' left, is no longer than `s`, and leaves a dash-free string unchanged. |
| Strings.RemoveCharConcat | aws_s3_controller/s3_file_control_utils.py:383-384 | Removing '-' works piece by piece, so the other characters keep their order. |
| Order.LeqTotal | aws_s3_controller/s3_file_control_utils.py:123 | The string order `sorted` uses is total. |
| Order.LeqTrans | aws_s3_controller/s3_file_control_utils.py:123 | The string order is transitive. |
| Order.LeqAntisymmetric | aws_s3_controller/s3_file_control_utils.py:123 | The string order is antisymmetric. |
| Order.LeqCommonPrefix | aws_s3_controller/s3_file_control_utils.py:121-123 | Putting the same prefix in front of two strings keeps their order. |
| Order.InsertPermutes | aws_s3_controller/s3_file_control_utils.py:123 | Inserting adds exactly the one element. |
| Order.InsertSorted | aws_s3_controller/s3_file_control_utils.py:123 | Inserting into a sorted list keeps it sorted. |
| Order.Sort | aws_s3_controller/s3_file_control_utils.py:123 | `sorted` on strings; its contract is carried by Order.SortSpec and Order.SortPrefixAll. |
| Order.SortSpec | aws_s3_controller/s3_file_control_utils.py:123 | `sorted` returns an ascending permutation of its input. |
| Order.PrefixAll | aws_s3_controller/s3_file_control_utils.py:121 | Prefixing every element keeps the length and puts the prefix in front of each element. |
| Order.InsertPrefixAll | aws_s3_controller/s3_file_control_utils.py:121-123 | Insertion commutes with putting a common prefix in front. |
| Order.SortPrefixAll | aws_s3_controller/s3_file_control_utils.py:121-123 | Sorting paths that share one folder prefix is sorting the names. |
| Keys.UploadKeyEndsWithName | aws_s3_controller/s3_file_control_utils.py:155-161 | The upload key ends with the file name, and its basename is that name. A `None` or empty prefix gives the bare name. |
| Keys.UploadKeyUnderPrefix | aws_s3_controller/s3_file_control_utils.py:157-159 | With a non-empty prefix, the key is the normalised prefix followed by the name, whether or not the caller wrote the '/'. |
| Keys.UploadKey | aws_s3_controller/s3_file_control_utils.py:155-161 | The upload key rule; its contract is carried by Keys.UploadKeyEndsWithName and Keys.UploadKeyUnderPrefix. |
| Keys.CsvKey | aws_s3_controller/s3_file_control_utils.py:184-191 | Neither name nor key raises ValueError. A name wins over a key and ends the key read. A key alone is read as given. |
| Keys.CsvKeyPrefixes | aws_s3_controller/s3_file_control_utils.py:189-191 | A `None` prefix is rendered as the text "None", an empty prefix becomes "/", and any other prefix is normalised. |
| Keys.ExcelKey | aws_s3_controller/s3_file_control_utils.py:243 | The Excel key is the prefix, one '/', then the name, whatever the prefix ends with. |
| Keys.ExcelKeyDoubleSlash | aws_s3_controller/s3_file_control_utils.py:243 | A prefix that already ends with '/' yields "//" in the key, unlike the normalising rules. |
| Keys.RelocateTarget | aws_s3_controller/s3_file_control_utils.py:297 | The relocate target key rule; its contract is carried by Keys.RelocateTargetSpec and Keys.RelocateTargetOfListedKey. |
| Keys.RelocateTargetSpec | aws_s3_controller/s3_file_control_utils.py:297 | With an empty source prefix the target key is `target_prefix + key`. A key starting with the source prefix gets the target prefix plus its remainder. A key without the source prefix is unchanged. |
| Keys.RelocateTargetOfListedKey | aws_s3_controller/s3_file_control_utils.py:297 | A key listed under the normalised source prefix becomes the target prefix plus the rest of the key. |
| BucketScan.KeepConcat | aws_s3_controller/s3_file_control_utils.py:36-40 | The filter works page by page: filtering two listings one after the other is filtering their concatenation. |
| BucketScan.KeepMembers | aws_s3_controller/s3_file_control_utils.py:39 | A key is kept exactly when it is listed, the pattern finds it, and it is not the prefix marker. |
| BucketScan.KeepOnlyDrops | aws_s3_controller/s3_file_control_utils.py:36-40 | The filter never adds keys. It keeps every key when all qualify and drops at least one otherwise. |
| BucketScan.MatchesMembers | aws_s3_controller/s3_file_control_utils.py:36-40 | The filtered list holds exactly the listed keys the pattern finds, other than the normalised prefix. The prefix's own marker object never appears. |
| BucketScan.Names | aws_s3_controller/s3_file_control_utils.py:43 | 'name' mode gives one name per key: the i-th name is the i-th key's text after its last '/', so it contains no '/'. |
| BucketScan.CollectPage | aws_s3_controller/s3_file_control_utils.py:38-40 | The inner loop appends exactly the qualifying keys of one page, in order. |
| BucketScan.ScanFilesInBucket | aws_s3_controller/s3_file_control_utils.py:29-65 | The scanner's loops compute the as-written outcome `ScanOutcome`. |
| BucketScan.ScanOutcome | aws_s3_controller/s3_file_control_utils.py:12-65 | The scanner's result as written; its contract is carried by BucketScan.ScanOutcomeCases, and BucketScan.ScanFilesInBucket computes it. |
| BucketScan.ScanIntended | aws_s3_controller/s3_file_control_utils.py:12-65 | The scanner's result as documented; its contract is carried by BucketScan.ScanIntendedSpec. |
| BucketScan.ScanOutcomeCases | aws_s3_controller/s3_file_control_utils.py:31-65 | The scan raises only for a pattern `re` rejects, and then raises RegexError. Every list it returns is empty. It returns `None` exactly when some key matched and the option is 'key' or 'name'. |
| BucketScan.ScanIntendedSpec | aws_s3_controller/s3_file_control_utils.py:22-23 | The documented scan returns the matches in 'key' mode, their names in 'name' mode, and `[]` for other options. On every input, a rejected pattern and a failing listing included, it differs from the as-written scan exactly when the as-written scan returns `None`. |
| BucketScan.FallThroughExample | aws_s3_controller/s3_file_control_utils.py:41-52 | One matching key: the scan as written returns `None`, while the documented scan returns that key. |
| LocalScan.FoundMembers | aws_s3_controller/s3_file_control_utils.py:118 | An entry is found exactly when the pattern finds its name, with its multiplicity kept. |
| LocalScan.JoinAllNames | aws_s3_controller/s3_file_control_utils.py:121 | Joining the folder with each plain name puts the normalised folder in front of each name. |
| LocalScan.ScanLocal | aws_s3_controller/s3_file_control_utils.py:105-124 | `scan_files_including_regex`; its contract is carried by LocalScan.ScanLocalErrors, LocalScan.ScanLocalNames and LocalScan.ScanLocalPaths. |
| LocalScan.ScanLocalErrors | aws_s3_controller/s3_file_control_utils.py:118-123 | The scan raises RegexError for a rejected pattern when there is an entry to test. It raises KeyError for an option other than 'name' or 'path'. |
| LocalScan.ScanLocalNames | aws_s3_controller/s3_file_control_utils.py:117-124 | 'name' mode is sorted ascending and holds exactly the entries the pattern finds, as a permutation of them. |
| LocalScan.ScanLocalPaths | aws_s3_controller/s3_file_control_utils.py:119-124 | 'path' mode is the folder joined with each name of 'name' mode, in the same order. Each path's basename is its name. |
| Transfers.RanUntilFailureUnique | aws_s3_controller/s3_file_control_utils.py:92-101 | A sequence of calls without exception handling has exactly one log: the calls in order, up to and including the first that raised. |
| Transfers.IssueInOrder | aws_s3_controller/s3_file_control_utils.py:92-101 | The calls of a loop without exception handling are issued in order and logged with the client's answer. The first call that raises ends the loop. The upload loop at lines 154-163 has the same shape. |
| Transfers.DownloadCallSpec | aws_s3_controller/s3_file_control_utils.py:94-101 | A key is downloaded into the folder (or its sub-folder when one is given), under its own basename. |
| Transfers.DownloadPlan | aws_s3_controller/s3_file_control_utils.py:92-101 | One download per key, in key order. |
| Transfers.DownloadKeys | aws_s3_controller/s3_file_control_utils.py:92-101 | The download loop issues the planned downloads in order and stops at the first failure. |
| Transfers.DownloadFiles | aws_s3_controller/s3_file_control_utils.py:85-101 | Downloading scans under the normalised prefix. A rejected pattern raises, and a scan that returned `None` makes `len(None)` raise TypeError. As written, no download is ever issued. |
| Transfers.UploadPlan | aws_s3_controller/s3_file_control_utils.py:154-163 | One upload per path, in path order, under the upload key of its basename. |
| Transfers.UploadPaths | aws_s3_controller/s3_file_control_utils.py:154-163 | The upload loop issues the planned uploads in order and stops at the first failure. |
| Transfers.UploadFiles | aws_s3_controller/s3_file_control_utils.py:144-165 | Uploading scans the folder (or its sub-folder) in 'path' mode. Nothing found returns `None` with no call. Otherwise the sorted paths are uploaded in order. |
| Transfers.UploadPlanFollowsSortedNames | aws_s3_controller/s3_file_control_utils.py:146-161 | Uploads follow the sorted order of the matching names. Each key is the normalised prefix plus the name, or the bare name without a prefix. |
| Transfers.RelocateKeys | aws_s3_controller/s3_file_control_utils.py:295-308 | The relocate loop produces the log `RelocateLog`: one key after another, whatever failed before. |
| Transfers.KeyEvents | aws_s3_controller/s3_file_control_utils.py:299-308 | The events of one key: its copy, then its delete only in 'move' mode after a successful copy; its contract is carried by Transfers.KeyEventsCopyOnce, Transfers.RelocateCopyTargets and Transfers.RelocateDeletes. |
| Transfers.RelocateLog | aws_s3_controller/s3_file_control_utils.py:295-308 | The relocate loop's log, key after key; its contract is carried by Transfers.RelocateCopiesEveryKey, Transfers.RelocateCopyTargets, Transfers.RelocateDeletes and Transfers.RelocateCopyModeNeverDeletes. |
| Transfers.RelocateFiles | aws_s3_controller/s3_file_control_utils.py:289-308 | A scan result that is `None` or empty issues nothing and returns `None`. A non-empty list runs the loop. An exception from the scan propagates. |
| Transfers.RelocateAsWritten | aws_s3_controller/s3_file_control_utils.py:289-293 | With the scan as written, a relocation issues no copy and no delete at all. |
| Transfers.CopySourcesConcat | aws_s3_controller/s3_file_control_utils.py:295-308 | The copy sources of two logs one after the other are the copy sources of each, in order. |
| Transfers.KeyEventsCopyOnce | aws_s3_controller/s3_file_control_utils.py:299-305 | Each key is copied exactly once. |
| Transfers.RelocateCopiesEveryKey | aws_s3_controller/s3_file_control_utils.py:295-308 | Every key is attempted in input order, even after earlier failures. |
| Transfers.RelocateCopyTargets | aws_s3_controller/s3_file_control_utils.py:296-301 | Every copy in the log goes from the source bucket to the target bucket, under the target key that the key rule of line 297 gives its source key. |
| Transfers.RelocateDeletes | aws_s3_controller/s3_file_control_utils.py:299-305 | Every delete removes the source key right after that key's copy succeeded, and only in 'move' mode. In 'move' mode, every successful copy is followed by its delete. |
| Transfers.RelocateCopyModeNeverDeletes | aws_s3_controller/s3_file_control_utils.py:303 | Any option other than 'move' never deletes. |
| Transfers.RelocateIntended | aws_s3_controller/s3_file_control_utils.py:289-308 | With the documented scan, every matching key of the source listing is copied, in listing order. |
| Transfers.CopyFilesBetweenBuckets | aws_s3_controller/s3_file_control_utils.py:311-326 | Copying is a relocation in 'copy' mode, which never deletes. |
| Transfers.MoveFilesBetweenBuckets | aws_s3_controller/s3_file_control_utils.py:329-347 | Moving is a relocation in 'move' mode. A delete is issued exactly after each successful copy. |
| Transfers.CreateSubfolder | aws_s3_controller/s3_file_control_utils.py:364-369 | An empty name raises IndexError with no call. Otherwise one put of the name with a trailing '/', added unless present. |
| Tabular.OpenCsv | aws_s3_controller/s3_file_control_utils.py:184-204 | Neither name nor key raises ValueError before any read. Otherwise the key is `CsvKey`'s (spelled out by Keys.CsvKeyPrefixes), and the result is a table exactly when reading that key succeeds, and then it is that table; `None` when reading raised. |
| Tabular.Pick | aws_s3_controller/s3_file_control_utils.py:222 | Indexing the scan result: `None` raises TypeError, an out-of-range index raises IndexError. |
| Tabular.OpenCsvByRegex | aws_s3_controller/s3_file_control_utils.py:207-224 | `open_df_in_bucket_by_regex`; its contract is carried by Tabular.OpenCsvByRegexAsWritten and Tabular.OpenCsvByRegexIntended. |
| Tabular.OpenCsvByRegexAsWritten | aws_s3_controller/s3_file_control_utils.py:220-224 | As written, the by-regex CSV read always raises: RegexError, TypeError when something matched, IndexError otherwise. |
| Tabular.OpenCsvByRegexIntended | aws_s3_controller/s3_file_control_utils.py:207-224 | With the documented scan, the default index reads the last matching key. No match raises IndexError. |
| Tabular.OpenExcel | aws_s3_controller/s3_file_control_utils.py:238-247 | The sheet under `prefix/name`, or the error record. The read never raises. |
| Tabular.OpenExcelByRegex | aws_s3_controller/s3_file_control_utils.py:249-267 | `open_excel_in_bucket_by_regex`; its contract is carried by Tabular.OpenExcelByRegexAsWritten and Tabular.OpenExcelByRegexIntended. |
| Tabular.OpenExcelByRegexAsWritten | aws_s3_controller/s3_file_control_utils.py:265-267 | As written, the by-regex Excel read always raises, for the same reasons as the CSV read. |
| Tabular.OpenExcelByRegexIntended | aws_s3_controller/s3_file_control_utils.py:249-267 | With the documented scan, the last matching key's name is read under `prefix/`. No match raises IndexError. |
| Tabular.ExcelKeyOfListedName | aws_s3_controller/s3_file_control_utils.py:243 | For a key directly under a prefix written without '/', splitting off the name and rejoining gives the listed key back. |
| Datasets.DateField | aws_s3_controller/s3_file_control_utils.py:378-384 | A date in the prefix has no '-'. |
| Datasets.MenuPrefix | aws_s3_controller/s3_file_control_utils.py:382-386 | Menu codes other than "2160" and "2205" raise KeyError. The two known codes give a prefix. |
| Datasets.DashedDate | aws_s3_controller/s3_file_control_utils.py:383-384 | A date `y-m-d` loses exactly its two dashes. |
| Datasets.MenuPrefixEndDate | aws_s3_controller/s3_file_control_utils.py:379-384 | An end date with or without dashes gives the same prefix. A missing or empty end date means yesterday. |
| Datasets.LocateMenuDatasets | aws_s3_controller/s3_file_control_utils.py:376-388 | An unknown menu raises KeyError. Otherwise the outcome is that of scanning under the normalised menu prefix with pattern `menu<code>`: a scan error propagates, a `None` scan raises TypeError, and an empty list returns `None`. As written it downloads nothing. |
| Datasets.ParseAll | aws_s3_controller/s3_file_control_utils.py:407-408 | Date parsing succeeds exactly when every date parses, and keeps every row's cells. |
| Datasets.FormatAll | aws_s3_controller/s3_file_control_utils.py:413-414 | Formatting keeps every row and its cells. |
| Datasets.AfterMembers | aws_s3_controller/s3_file_control_utils.py:411 | The rows kept from the new table are exactly those dated strictly after the old last date. |
| Datasets.AfterConcat | aws_s3_controller/s3_file_control_utils.py:411 | The filter keeps the order of the rows. |
| Datasets.AfterNone | aws_s3_controller/s3_file_control_utils.py:411 | With nothing later than the boundary, nothing is added. |
| Datasets.AfterKeepsOrder | aws_s3_controller/s3_file_control_utils.py:411 | Kept rows from a table in date order are in date order. |
| Datasets.MergeDated | aws_s3_controller/s3_file_control_utils.py:410-416 | The merged table starts with all old rows and adds at most the new rows. |
| Datasets.MergeDatedRows | aws_s3_controller/s3_file_control_utils.py:410-416 | After the old rows come exactly the new rows dated after the old last date, in order. |
| Datasets.MergeDatedOrdered | aws_s3_controller/s3_file_control_utils.py:410-416 | Inputs in date order give output in date order. Strictly ascending inputs never repeat the boundary date. |
| Datasets.MergeDatedNothingLater | aws_s3_controller/s3_file_control_utils.py:410-416 | A new table with nothing later leaves the old table unchanged. |
| Datasets.AfterLast | aws_s3_controller/s3_file_control_utils.py:411 | For a new table in date order with later rows, the last added row is the new table's last row. |
| Datasets.MergeDatedIdempotent | aws_s3_controller/s3_file_control_utils.py:410-416 | Merging the same date-ordered new table a second time changes nothing. |
| Datasets.MergeDatedExample | aws_s3_controller/s3_file_control_utils.py:410-416 | Days 1-3 merged with days 2-5 give days 1-5, each once. |
| Datasets.Merge | aws_s3_controller/s3_file_control_utils.py:392-435 | `merge_timeseries_csv_files` as written; its contract is carried by Datasets.MergeOutcome and Datasets.MergeOneRowRaises, and its rows by the Datasets.MergeDated lemmas. |
| Datasets.MergeIntended | aws_s3_controller/s3_file_control_utils.py:418 | The merge with the "from" date read from the first row; its contract is carried by Datasets.MergeIntendedOutcome. |
| Datasets.MergeOutcome | aws_s3_controller/s3_file_control_utils.py:392-431 | An unreadable file gives `None`. An empty table or an unparseable date raises ValueError. A result of fewer than two rows raises IndexError. Otherwise the rows are the merge, formatted, and the save path joins the save folder (its "from" date taken from the second row) with the save name (both dated by the last row). |
| Datasets.MergeOneRowRaises | aws_s3_controller/s3_file_control_utils.py:418 | A one-row old table with nothing later raises IndexError, because the first date is read from position 1. |
| Datasets.MergeIntendedOutcome | aws_s3_controller/s3_file_control_utils.py:418-428 | With the "from" date read from the first row, every readable, non-empty, parseable pair merges, and the folder's "from" date is the old table's first date. |
| Datasets.BaseName | aws_s3_controller/s3_file_control_utils.py:421-422 | The base name is a prefix of the old file's basename without "-to" in it. |
| Datasets.MenuName | aws_s3_controller/s3_file_control_utils.py:423 | The menu part is a prefix of the base name without '-'. |
| Datasets.SaveNameDefault | aws_s3_controller/s3_file_control_utils.py:424 | The default file name starts with the base name and ends with ".csv". |
| Datasets.SaveFolderDefault | aws_s3_controller/s3_file_control_utils.py:426-428 | The default folder is `./dataset-timeseries-<menu>-from…`. |
| Datasets.BaseOfConventionalName | aws_s3_controller/s3_file_control_utils.py:422 | `<menu>-<code>-to<rest>` split at "-to" gives `<menu>-<code>`. |
| Datasets.MenuOfConventionalName | aws_s3_controller/s3_file_control_utils.py:423 | `<menu>-<code>` split at '-' gives `<menu>`. |
| Datasets.ConventionalNames | aws_s3_controller/s3_file_control_utils.py:421-423 | An old file `<dir>/<menu>-<code>-to<rest>` yields base `<menu>-<code>` and menu `<menu>`. |

## Left out

- The object-store client (`S3_WITHOUT_CREDENTIALS`, the paginator, `download_file`, `upload_file`, `copy_object`, `delete_object`, `get_object`, `boto3.resource(...).put`): calls are logged events. Whether a call raises is the input `accepts`. The store's contents are not modelled.
- `aws_connector` is not part of this model. Every exception the client raises, the two botocore credential errors included, is one `ClientError`.
- The `re` engine: a pattern is whether `re` accepts it plus an uninterpreted "matches somewhere" predicate.
- pandas parsing and writing (`read_csv`, `read_excel`, `to_datetime`, `strftime`, `to_csv`): rows are records with a date column, and parse/format are parameters. A missing date column (KeyError in pandas) is not modelled.
- The file system (`os.scandir`, `os.makedirs`, `os.path.exists`, `check_folder_and_create_folder`): a directory is its entry names, and folder creation is not modelled. Writing the merged CSV is not modelled; the merge returns the rows and the save path.
- `get_today` and `get_date_n_days_ago` are parameters. The merge calls `get_today` twice, and the model assumes both calls give the same date.
- `print` output.
- Datasets.MenuPrefix: its contract states only the error cases. The shape of the prefix is stated by Datasets.MenuPrefixEndDate and Datasets.DashedDate rather than in full.
- Transfers.DownloadFiles, Transfers.UploadFiles, Datasets.LocateMenuDatasets, Transfers.RelocateFiles, Transfers.CopyFilesBetweenBuckets and Transfers.MoveFilesBetweenBuckets take the scan result or the listing as an argument. The scanner's own I/O is not repeated in them.
- Paths.LastSegment: its contract states only that the name has no '/'. The suffix property is the separate lemma Paths.LastSegmentSuffix.

## Findings

| source | as written | input that shows it | evidently intended | confidence | as-written member | corrected member |
|---|---|---|---|---|---|---|
| aws_s3_controller/s3_file_control_utils.py:41-55 | When something matches, the scanner falls off the end of the function without `return files`, so the call returns `None`. Every caller then fails or does nothing: downloads raise TypeError at `len(None)`, relocations copy nothing, and by-regex reads raise TypeError. | one page listing `data/a.csv`, prefix `data`, a pattern that finds it, option `key` | return the mapped list, as the docstring says | high; not executed | BucketScan.FallThroughExample | BucketScan.ScanIntendedSpec |
| aws_s3_controller/s3_file_control_utils.py:418 | The folder's "from" date is read with `iloc[1]`, the merged table's second row, so the folder name skips the first date, and a merge whose result has one row raises IndexError after both files were read. | an old table of one row and a new table with no later date | `iloc[0]`, the first date of the merged table | medium; not executed | Datasets.MergeOneRowRaises | Datasets.MergeIntendedOutcome |
