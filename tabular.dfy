/** Reading one CSV or Excel object out of a bucket: the key rules of
    `open_df_in_bucket` and `open_excel_in_bucket`, and the by-regex variants that
    pick one of the scanner's results by index. The object store and the parsers
    are a single function `fetch(bucket, key)`, which yields the parsed table or
    `None` when the client or the parser raised. */
module Tabular {
  import opened Python
  import opened Paths
  import opened Keys
  import opened BucketScan

  /** `open_df_in_bucket`: a missing name and key raise ValueError before any
      request; otherwise the table under the derived key, or `None` when reading
      it failed (the exception is caught). The key a name is read under is
      spelled out by `CsvKeyPrefixes`. */
  function OpenCsv<T>(bucket: string, prefix: Option<string>, name: Option<string>, key: Option<string>,
                      fetch: (string, string) -> Option<T>): (r: Py<T>)
    ensures r.Raise? <==> name.None? && key.None?
    ensures r.Raise? ==> r.e == ValueError
    ensures name.None? && key.Some? ==> (r.Val? <==> fetch(bucket, key.value).Some?)
    ensures name.None? && key.Some? && r.Val? ==> fetch(bucket, key.value) == Some(r.v)
    ensures name.Some? ==> (CsvKey(prefix, name, key).Val? &&
                            (r.Val? <==> fetch(bucket, CsvKey(prefix, name, key).v).Some?) &&
                            (r.Val? ==> fetch(bucket, CsvKey(prefix, name, key).v) == Some(r.v)))
  {
    match CsvKey(prefix, name, key)
    case Val(path) =>
      (match fetch(bucket, path)
       case Some(table) => Val(table)
       case None => PyNone)
    case _ => Raise(ValueError)
  }

  /** `file_keys[index]` on whatever the scan returned: `None[index]` raises
      TypeError, an index outside the list raises IndexError. */
  function Pick(found: Py<seq<string>>, index: int): (r: Py<string>)
    ensures found.Raise? ==> r == Raise(found.e)
    ensures found.PyNone? ==> r == Raise(TypeError)
    ensures found.Val? ==> r == PyIndex(found.v, index)
  {
    match found
    case Raise(e) => Raise(e)
    case PyNone => Raise(TypeError)
    case Val(keys) => PyIndex(keys, index)
  }

  /** `open_df_in_bucket_by_regex` for a given scan result: the picked key is
      read as a full key (no prefix, no name). */
  function OpenCsvPicked<T>(bucket: string, found: Py<seq<string>>, index: int,
                            fetch: (string, string) -> Option<T>): Py<T>
  {
    match Pick(found, index)
    case Val(key) => OpenCsv(bucket, None, None, Some(key), fetch)
    case PyNone => PyNone
    case Raise(e) => Raise(e)
  }

  /** `open_df_in_bucket_by_regex`: the prefix is normalised, the bucket is
      scanned for keys, and the key at `index` (the last one by default) is
      read. */
  function OpenCsvByRegex<T>(listing: Listing, bucket: string, prefix: string, pattern: Pattern, index: int,
                             fetch: (string, string) -> Option<T>): Py<T>
  {
    OpenCsvPicked(bucket, ScanOutcome(listing, NormalizePrefix(prefix), pattern, "key"), index, fetch)
  }

  /** As written the by-regex reader never returns a table: a pattern `re`
      rejects raises RegexError, a scan that found something returns `None` and
      indexing it raises TypeError, and a scan that found nothing returns `[]`,
      so indexing raises IndexError. */
  lemma OpenCsvByRegexAsWritten<T>(listing: Listing, bucket: string, prefix: string, pattern: Pattern, index: int,
                                   fetch: (string, string) -> Option<T>)
    ensures OpenCsvByRegex(listing, bucket, prefix, pattern, index, fetch).Raise?
    ensures var e := OpenCsvByRegex(listing, bucket, prefix, pattern, index, fetch).e;
            && (!pattern.compiles ==> e == RegexError)
            && (pattern.compiles && listing.Pages? && Matches(listing.pages, NormalizePrefix(prefix), pattern.search) != [] ==> e == TypeError)
            && (pattern.compiles && (listing.ListingFails? || Matches(listing.pages, NormalizePrefix(prefix), pattern.search) == []) ==> e == IndexError)
  {
    ScanOutcomeCases(listing, NormalizePrefix(prefix), pattern, "key");
  }

  /** With a scan that returned its matches, the default index reads the last
      matching key under the normalised prefix. */
  lemma OpenCsvByRegexIntended<T>(listing: Listing, bucket: string, prefix: string, pattern: Pattern,
                                  fetch: (string, string) -> Option<T>)
    requires pattern.compiles && listing.Pages?
    ensures var matches := Matches(listing.pages, NormalizePrefix(prefix), pattern.search);
            var r := OpenCsvPicked(bucket, ScanIntended(listing, NormalizePrefix(prefix), pattern, "key"), -1, fetch);
            && (matches == [] ==> r == Raise(IndexError))
            && (matches != [] ==> (r.Val? <==> fetch(bucket, matches[|matches| - 1]).Some?))
            && (matches != [] && r.Val? ==> fetch(bucket, matches[|matches| - 1]) == Some(r.v))
  {
    ScanIntendedSpec(listing, NormalizePrefix(prefix), pattern, "key");
    LastIndex(Matches(listing.pages, NormalizePrefix(prefix), pattern.search));
  }

  /** What `open_excel_in_bucket` returns: the parsed sheet, or the dictionary
      `{"success": False, "error": ...}` when anything raised. */
  datatype Sheet<T> = Table(table: T) | ErrorRecord

  /** `open_excel_in_bucket`: the object under `prefix + '/' + name`; it never
      raises, every failure becomes the error record. */
  function OpenExcel<T>(bucket: string, prefix: string, name: string, fetch: (string, string) -> Option<T>): (r: Sheet<T>)
    ensures r.Table? <==> fetch(bucket, ExcelKey(prefix, name)).Some?
    ensures r.Table? ==> fetch(bucket, ExcelKey(prefix, name)) == Some(r.table)
  {
    match fetch(bucket, ExcelKey(prefix, name))
    case Some(table) => Table(table)
    case None => ErrorRecord
  }

  /** `open_excel_in_bucket_by_regex` for a given scan result (names, not keys):
      the last name is read under the raw prefix. */
  function OpenExcelPicked<T>(bucket: string, prefix: string, found: Py<seq<string>>,
                              fetch: (string, string) -> Option<T>): Py<Sheet<T>>
  {
    match Pick(found, -1)
    case Val(name) => Val(OpenExcel(bucket, prefix, name, fetch))
    case PyNone => PyNone
    case Raise(e) => Raise(e)
  }

  /** `open_excel_in_bucket_by_regex`: the scan runs on the raw prefix in 'name'
      mode, and the last name is read. */
  function OpenExcelByRegex<T>(listing: Listing, bucket: string, prefix: string, pattern: Pattern,
                               fetch: (string, string) -> Option<T>): Py<Sheet<T>>
  {
    OpenExcelPicked(bucket, prefix, ScanOutcome(listing, prefix, pattern, "name"), fetch)
  }

  /** As written the Excel by-regex reader raises on every input, for the same
      reasons as the CSV one; in particular it never reaches the error record. */
  lemma OpenExcelByRegexAsWritten<T>(listing: Listing, bucket: string, prefix: string, pattern: Pattern,
                                     fetch: (string, string) -> Option<T>)
    ensures OpenExcelByRegex(listing, bucket, prefix, pattern, fetch).Raise?
    ensures var e := OpenExcelByRegex(listing, bucket, prefix, pattern, fetch).e;
            && (!pattern.compiles ==> e == RegexError)
            && (pattern.compiles && listing.Pages? && Matches(listing.pages, prefix, pattern.search) != [] ==> e == TypeError)
            && (pattern.compiles && (listing.ListingFails? || Matches(listing.pages, prefix, pattern.search) == []) ==> e == IndexError)
  {
    ScanOutcomeCases(listing, prefix, pattern, "name");
  }

  /** With a scan that returned its matches, the Excel reader takes the last
      matching key's name and reads it under `prefix + '/'`. For a key directly
      under a prefix without a trailing '/', that is the matching key itself. */
  lemma OpenExcelByRegexIntended<T>(listing: Listing, bucket: string, prefix: string, pattern: Pattern,
                                    fetch: (string, string) -> Option<T>)
    requires pattern.compiles && listing.Pages?
    ensures var matches := Matches(listing.pages, prefix, pattern.search);
            var r := OpenExcelPicked(bucket, prefix, ScanIntended(listing, prefix, pattern, "name"), fetch);
            && (matches == [] ==> r == Raise(IndexError))
            && (matches != [] ==> r == Val(OpenExcel(bucket, prefix, LastSegment(matches[|matches| - 1]), fetch)))
  {
    ScanIntendedSpec(listing, prefix, pattern, "name");
    var matches := Matches(listing.pages, prefix, pattern.search);
    LastIndex(Names(matches));
  }

  /** The name-then-rejoin round trip of the Excel reader gives back the listed
      key when the key sits directly under a non-empty prefix written without a
      trailing '/'. */
  lemma ExcelKeyOfListedName(prefix: string, name: string)
    requires prefix != "" && !EndsWithSlash(prefix) && '/' !in name
    ensures ExcelKey(prefix, LastSegment(NormalizePrefix(prefix) + name)) == NormalizePrefix(prefix) + name
  {
    LastSegmentOfJoin(prefix, name);
    JoinName(prefix, name);
  }
}
