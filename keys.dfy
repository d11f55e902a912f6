/** The rules that decide under which key an object is written or read. */
module Keys {
  import opened Python
  import opened Paths
  import opened Strings

  /** Upload key (s3_file_control_utils.py, upload_files_to_s3): a truthy prefix is
      normalised and joined with the file name; a `None` or empty prefix leaves
      the bare file name. */
  function UploadKey(prefix: Option<string>, name: string): string {
    if Truthy(prefix) then Join(NormalizePrefix(prefix.value), name) else name
  }

  /** The upload key always ends with the file name, and for a plain name its
      last segment is that name: the object keeps the file's name. */
  lemma UploadKeyEndsWithName(prefix: Option<string>, name: string)
    ensures |name| <= |UploadKey(prefix, name)| && UploadKey(prefix, name)[|UploadKey(prefix, name)| - |name|..] == name
    ensures '/' !in name ==> LastSegment(UploadKey(prefix, name)) == name
    ensures !Truthy(prefix) ==> UploadKey(prefix, name) == name
  {
    if Truthy(prefix) {
      JoinSpec(NormalizePrefix(prefix.value), name);
      if '/' !in name {
        LastSegmentOfJoin(NormalizePrefix(prefix.value), name);
      }
    } else if '/' !in name {
      LastSegmentUnique(name, name);
    }
  }

  /** For a plain file name the key is the normalised prefix followed by the name:
      exactly one '/' between them whether or not the caller wrote one. */
  lemma UploadKeyUnderPrefix(prefix: string, name: string)
    requires prefix != "" && '/' !in name
    ensures UploadKey(Some(prefix), name) == NormalizePrefix(prefix) + name
    ensures UploadKey(Some(prefix), name) == UploadKey(Some(NormalizePrefix(prefix)), name)
  {
    JoinName(NormalizePrefix(prefix), name);
    NormalizeIdempotent(prefix);
  }

  /** The key `open_df_in_bucket` reads: `file_name` wins over `file_key`; with a
      name, a prefix that is not `None` gets a '/' appended unless it ends with one
      (the empty prefix too), and a `None` prefix is rendered by the f-string as the
      text "None". Neither a name nor a key raises ValueError. */
  function CsvKey(prefix: Option<string>, name: Option<string>, key: Option<string>): (r: Py<string>)
    ensures r.Raise? <==> name.None? && key.None?
    ensures r.Raise? ==> r.e == ValueError
    ensures !r.PyNone?
    ensures name.Some? ==> r.Val? && |name.value| <= |r.v| && r.v[|r.v| - |name.value|..] == name.value
    ensures name.None? && key.Some? ==> r == Val(key.value)
  {
    if name.None? && key.None? then Raise(ValueError)
    else if name.Some? then
      var head :=
        if prefix.None? then "None"
        else if EndsWithSlash(prefix.value) then prefix.value
        else prefix.value + "/";
      Val(head + name.value)
    else Val(key.value)
  }

  /** How the prefix shows up in `open_df_in_bucket`'s key: `None` as "None",
      the empty prefix as "/", any other prefix normalised. */
  lemma CsvKeyPrefixes(name: string, key: Option<string>, prefix: string)
    ensures CsvKey(None, Some(name), key) == Val("None" + name)
    ensures CsvKey(Some(""), Some(name), key) == Val("/" + name)
    ensures prefix != "" ==> CsvKey(Some(prefix), Some(name), key) == Val(NormalizePrefix(prefix) + name)
  {
    assert "" + "/" == "/";
  }

  /** The key `open_excel_in_bucket` reads: always `prefix + '/' + name`. */
  function ExcelKey(prefix: string, name: string): (r: string)
    ensures |r| == |prefix| + 1 + |name|
    ensures r[..|prefix|] == prefix && r[|prefix|] == '/' && r[|prefix| + 1..] == name
  {
    prefix + "/" + name
  }

  /** A prefix that already ends with '/' yields a doubled slash in the Excel key,
      where the normalising helpers would not. */
  lemma ExcelKeyDoubleSlash(prefix: string, name: string)
    requires EndsWithSlash(prefix)
    ensures OccursAt(ExcelKey(prefix, name), "//", |prefix| - 1)
    ensures ExcelKey(prefix, name) != NormalizePrefix(prefix) + name
  {
    var r := ExcelKey(prefix, name);
    assert r[|prefix| - 1..|prefix| + 1] == "//";
    assert |r| != |NormalizePrefix(prefix) + name|;
  }

  /** Target key in `relocate_files_between_buckets`: with a source prefix, its
      first occurrence in the key is replaced by the target prefix; without one,
      the target prefix is put in front of the key. */
  function RelocateTarget(key: string, source: string, target: string): string {
    if source != "" then ReplaceFirst(key, source, target) else target + key
  }

  /** What the target key is: the target prefix followed by the rest of the key
      when the key starts with the source prefix (or the source prefix is empty);
      the key itself when the source prefix does not occur in it. */
  lemma RelocateTargetSpec(key: string, source: string, target: string)
    ensures source == "" ==> RelocateTarget(key, source, target) == target + key
    ensures OccursAt(key, source, 0) ==> RelocateTarget(key, source, target) == target + key[|source|..]
    ensures source != "" && (forall j :: !OccursAt(key, source, j)) ==>
              RelocateTarget(key, source, target) == key
  {
    if source == "" {
      assert key[|source|..] == key;
    } else if OccursAt(key, source, 0) {
      ReplaceFirstAt(key, source, target, 0);
    } else if forall j :: !OccursAt(key, source, j) {
      ReplaceFirstAbsent(key, source, target);
    }
  }

  /** A key listed under the normalised source prefix starts with the source
      prefix, so the first occurrence is the head of the key and the rewrite
      cannot hit a later repetition of the prefix text. */
  lemma RelocateTargetOfListedKey(key: string, source: string, target: string)
    requires |NormalizePrefix(source)| <= |key| && key[..|NormalizePrefix(source)|] == NormalizePrefix(source)
    ensures RelocateTarget(key, source, target) == target + key[|source|..]
  {
    assert key[..|source|] == NormalizePrefix(source)[..|source|];
    assert OccursAt(key, source, 0);
    RelocateTargetSpec(key, source, target);
  }
}
