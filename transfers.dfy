/** The bulk operations that act on what a scan selected: download, upload,
    copy/move between buckets, and the creation of a folder marker. Each remote
    call is recorded in an event log together with whether the client accepted
    it or raised; which calls raise is an input (`accepts`). */
module Transfers {
  import opened Python
  import opened Paths
  import opened Keys
  import opened BucketScan
  import opened LocalScan

  /** The object-store client calls the helpers issue. */
  datatype Call =
    | Download(bucket: string, key: string, localPath: string)
    | Upload(localPath: string, bucket: string, key: string)
    | Copy(sourceBucket: string, sourceKey: string, targetBucket: string, targetKey: string)
    | Delete(bucket: string, key: string)
    | Put(bucket: string, key: string)

  /** One issued call, and whether it returned (true) or raised (false). */
  datatype Event = Event(call: Call, ok: bool)

  /** `log` is what issuing `calls` in order gives when the first call that raises
      ends the batch: each logged call is the planned one with the client's answer,
      every call but the last succeeded, `failed` says the last one raised, and a
      batch that did not fail issued every call. */
  ghost predicate RanUntilFailure(calls: seq<Call>, accepts: Call -> bool, log: seq<Event>, failed: bool) {
    && |log| <= |calls|
    && (forall i :: 0 <= i < |log| ==> log[i] == Event(calls[i], accepts(calls[i])))
    && (forall i :: 0 <= i < |log| - 1 ==> log[i].ok)
    && (failed <==> |log| > 0 && !log[|log| - 1].ok)
    && (!failed ==> |log| == |calls|)
  }

  /** The relation above admits one log: the batch stops at the first call the
      client rejects, or runs to the end when there is none. */
  lemma RanUntilFailureUnique(calls: seq<Call>, accepts: Call -> bool, log: seq<Event>, failed: bool,
                              log': seq<Event>, failed': bool)
    requires RanUntilFailure(calls, accepts, log, failed)
    requires RanUntilFailure(calls, accepts, log', failed')
    ensures log == log' && failed == failed'
  {
    if |log| < |log'| {
      assert false;
    } else if |log'| < |log| {
      assert false;
    }
  }

  /** The loop shared by the download and upload helpers: the calls are issued
      one after the other without exception handling, so the first call that
      raises propagates and ends the loop. */
  method IssueInOrder(calls: seq<Call>, accepts: Call -> bool) returns (log: seq<Event>, failed: bool)
    ensures RanUntilFailure(calls, accepts, log, failed)
  {
    log, failed := [], false;
    var i := 0;
    while i < |calls|
      invariant 0 <= i <= |calls|
      invariant |log| == i
      invariant forall j :: 0 <= j < i ==> log[j] == Event(calls[j], true) && accepts(calls[j])
    {
      if !accepts(calls[i]) {
        log, failed := log + [Event(calls[i], false)], true;
        return;
      }
      log := log + [Event(calls[i], true)];
      i := i + 1;
    }
  }

  // ---------------------------------------------------------------------------
  // download_files_from_s3

  /** The folder files are saved to: the subfolder joined under the folder when a
      truthy subfolder is given. */
  function LocalDir(folder: string, subfolder: Option<string>): string {
    if Truthy(subfolder) then Join(folder, subfolder.value) else folder
  }

  /** The download of one key: `file_name = key.split('/')[-1]`, saved at
      `os.path.join(local_path, file_name)`. */
  function DownloadCall(bucket: string, key: string, folder: string, subfolder: Option<string>): Call {
    Download(bucket, key, Join(LocalDir(folder, subfolder), LastSegment(key)))
  }

  /** Each key is saved in the local folder under its last segment: the local
      file name never holds a '/', so distinct folders never mix. */
  lemma DownloadCallSpec(bucket: string, key: string, folder: string, subfolder: Option<string>)
    ensures DownloadCall(bucket, key, folder, subfolder) ==
              Download(bucket, key, NormalizePrefix(LocalDir(folder, subfolder)) + LastSegment(key))
    ensures LastSegment(DownloadCall(bucket, key, folder, subfolder).localPath) == LastSegment(key)
  {
    JoinName(LocalDir(folder, subfolder), LastSegment(key));
    LastSegmentOfJoin(LocalDir(folder, subfolder), LastSegment(key));
  }

  /** One download per key, in order. */
  function DownloadPlan(bucket: string, keys: seq<string>, folder: string, subfolder: Option<string>): (r: seq<Call>)
    ensures |r| == |keys|
    ensures forall i :: 0 <= i < |r| ==> r[i] == DownloadCall(bucket, keys[i], folder, subfolder)
  {
    seq(|keys|, i requires 0 <= i < |keys| => DownloadCall(bucket, keys[i], folder, subfolder))
  }

  /** The loop of `download_files_from_s3`: each key is fetched in turn, and the
      first download that raises propagates and ends the loop. */
  method DownloadKeys(bucket: string, keys: seq<string>, folder: string, subfolder: Option<string>,
                      accepts: Call -> bool)
    returns (log: seq<Event>, failed: bool)
    ensures RanUntilFailure(DownloadPlan(bucket, keys, folder, subfolder), accepts, log, failed)
  {
    log, failed := IssueInOrder(DownloadPlan(bucket, keys, folder, subfolder), accepts);
  }

  /** `download_files_from_s3`: scan for keys under the normalised prefix, then
      download them. The scan as written returns `None` whenever something
      matches, and `len(None)` raises TypeError before any download. */
  method DownloadFiles(listing: Listing, bucket: string, pattern: Pattern, folder: string, prefix: string,
                       subfolder: Option<string>, accepts: Call -> bool)
    returns (log: seq<Event>, r: Py<()>)
    ensures var found := ScanOutcome(listing, NormalizePrefix(prefix), pattern, "key");
            && (found.Raise? ==> log == [] && r == Raise(found.e))
            && (found.PyNone? ==> log == [] && r == Raise(TypeError))
            && (found.Val? ==> exists failed ::
                  RanUntilFailure(DownloadPlan(bucket, found.v, folder, subfolder), accepts, log, failed) &&
                  r == if failed then Raise(ClientError) else PyNone)
    ensures log == []
    ensures r.Raise? || r == PyNone
  {
    var normalized := NormalizePrefix(prefix);
    var found := ScanFilesInBucket(listing, normalized, pattern, "key");
    ScanOutcomeCases(listing, normalized, pattern, "key");
    if found.Raise? {
      return [], Raise(found.e);
    }
    if found.PyNone? {
      return [], Raise(TypeError);
    }
    var failed;
    log, failed := DownloadKeys(bucket, found.v, folder, subfolder, accepts);
    r := if failed then Raise(ClientError) else PyNone;
  }

  // ---------------------------------------------------------------------------
  // upload_files_to_s3

  /** The upload of one local path: `os.path.basename(file_path)` under the key
      rule of `upload_files_to_s3`. */
  function UploadCall(path: string, bucket: string, prefix: Option<string>): Call {
    Upload(path, bucket, UploadKey(prefix, LastSegment(path)))
  }

  /** One upload per local path, in order. */
  function UploadPlan(paths: seq<string>, bucket: string, prefix: Option<string>): (r: seq<Call>)
    ensures |r| == |paths|
    ensures forall i :: 0 <= i < |r| ==> r[i] == UploadCall(paths[i], bucket, prefix)
  {
    seq(|paths|, i requires 0 <= i < |paths| => UploadCall(paths[i], bucket, prefix))
  }

  /** The loop of `upload_files_to_s3`: each path is uploaded in turn, and the
      first upload that raises propagates and ends the loop. */
  method UploadPaths(paths: seq<string>, bucket: string, prefix: Option<string>, accepts: Call -> bool)
    returns (log: seq<Event>, failed: bool)
    ensures RanUntilFailure(UploadPlan(paths, bucket, prefix), accepts, log, failed)
  {
    log, failed := IssueInOrder(UploadPlan(paths, bucket, prefix), accepts);
  }

  /** `upload_files_to_s3`: scan the local folder (or its subfolder) for matching
      paths, sorted; nothing found returns without a call; otherwise upload each. */
  method UploadFiles(folder: string, subfolder: Option<string>, entries: seq<string>, pattern: Pattern,
                     bucket: string, prefix: Option<string>, accepts: Call -> bool)
    returns (log: seq<Event>, r: Py<()>)
    ensures var found := ScanLocal(LocalDir(folder, subfolder), entries, pattern, "path");
            && (found.Raise? ==> log == [] && r == Raise(found.e))
            && (found.Val? ==> exists failed ::
                  RanUntilFailure(UploadPlan(found.v, bucket, prefix), accepts, log, failed) &&
                  r == if failed then Raise(ClientError) else PyNone)
  {
    var dir := LocalDir(folder, subfolder);
    var found := ScanLocal(dir, entries, pattern, "path");
    ScanLocalErrors(dir, entries, pattern, "path");
    if found.Raise? {
      return [], Raise(found.e);
    }
    if found.v == [] {
      assert RanUntilFailure(UploadPlan(found.v, bucket, prefix), accepts, [], false);
      return [], PyNone;
    }
    var failed;
    log, failed := UploadPaths(found.v, bucket, prefix, accepts);
    r := if failed then Raise(ClientError) else PyNone;
  }

  /** Uploads follow the sorted order of the matching names, and each key is the
      normalised prefix followed by the name (the bare name without a prefix). */
  lemma UploadPlanFollowsSortedNames(folder: string, entries: seq<string>, pattern: Pattern,
                                     bucket: string, prefix: Option<string>)
    requires pattern.compiles
    requires forall i :: 0 <= i < |entries| ==> '/' !in entries[i]
    ensures var names := ScanLocal(folder, entries, pattern, "name").v;
            var plan := UploadPlan(ScanLocal(folder, entries, pattern, "path").v, bucket, prefix);
            && |plan| == |names|
            && (forall i :: 0 <= i < |plan| ==> plan[i].key == UploadKey(prefix, names[i]))
            && (forall i :: 0 <= i < |plan| && Truthy(prefix) ==> plan[i].key == NormalizePrefix(prefix.value) + names[i])
            && (forall i :: 0 <= i < |plan| && !Truthy(prefix) ==> plan[i].key == names[i])
  {
    ScanLocalPaths(folder, entries, pattern);
    ScanLocalNames(folder, entries, pattern);
    var names := ScanLocal(folder, entries, pattern, "name").v;
    forall i | 0 <= i < |names| && Truthy(prefix) ensures UploadKey(prefix, names[i]) == NormalizePrefix(prefix.value) + names[i] {
      assert names[i] in entries;
      UploadKeyUnderPrefix(prefix.value, names[i]);
    }
  }

  // ---------------------------------------------------------------------------
  // relocate_files_between_buckets

  /** The arguments of one relocation. */
  datatype Relocation = Relocation(sourceBucket: string, targetBucket: string,
                                   sourcePrefix: string, targetPrefix: string, option: string)

  function CopyOf(job: Relocation, key: string): Call {
    Copy(job.sourceBucket, key, job.targetBucket, RelocateTarget(key, job.sourcePrefix, job.targetPrefix))
  }

  /** The events for one key: the copy, then, only when the option is 'move' and
      the copy returned, the delete of the source object. */
  function KeyEvents(job: Relocation, key: string, accepts: Call -> bool): seq<Event> {
    if !accepts(CopyOf(job, key)) then [Event(CopyOf(job, key), false)]
    else if job.option == "move" then
      [Event(CopyOf(job, key), true), Event(Delete(job.sourceBucket, key), accepts(Delete(job.sourceBucket, key)))]
    else [Event(CopyOf(job, key), true)]
  }

  /** The events of the whole loop: one key after the other, whatever happened
      to the keys before (failures are caught per key). */
  function RelocateLog(job: Relocation, keys: seq<string>, accepts: Call -> bool): seq<Event>
    decreases |keys|
  {
    if keys == [] then []
    else RelocateLog(job, keys[..|keys| - 1], accepts) + KeyEvents(job, keys[|keys| - 1], accepts)
  }

  /** The loop of `relocate_files_between_buckets`. */
  method RelocateKeys(job: Relocation, keys: seq<string>, accepts: Call -> bool) returns (log: seq<Event>)
    ensures log == RelocateLog(job, keys, accepts)
  {
    log := [];
    var i := 0;
    while i < |keys|
      invariant 0 <= i <= |keys|
      invariant log == RelocateLog(job, keys[..i], accepts)
    {
      var key := keys[i];
      var targetKey := if job.sourcePrefix != "" then Strings.ReplaceFirst(key, job.sourcePrefix, job.targetPrefix)
                       else job.targetPrefix + key;
      var copy := Copy(job.sourceBucket, key, job.targetBucket, targetKey);
      assert keys[..i + 1][..i] == keys[..i];
      if accepts(copy) {
        log := log + [Event(copy, true)];
        if job.option == "move" {
          var delete := Delete(job.sourceBucket, key);
          log := log + [Event(delete, accepts(delete))];
        }
      } else {
        log := log + [Event(copy, false)];
      }
      i := i + 1;
    }
    assert keys[..i] == keys;
  }

  /** What the loop does for a scan result: nothing unless it is a non-empty list. */
  function RelocateFromScan(job: Relocation, found: Py<seq<string>>, accepts: Call -> bool): seq<Event> {
    if found.Val? && found.v != [] then RelocateLog(job, found.v, accepts) else []
  }

  /** `relocate_files_between_buckets` after its scan: `found` is what the scan
      of the source bucket under the source prefix returned. `if not
      files_to_relocate` treats `None` like the empty list. */
  method RelocateFiles(found: Py<seq<string>>, job: Relocation, accepts: Call -> bool)
    returns (log: seq<Event>, r: Py<()>)
    ensures log == RelocateFromScan(job, found, accepts)
    ensures r == if found.Raise? then Raise(found.e) else PyNone
  {
    match found {
      case Raise(e) =>
        return [], Raise(e);
      case PyNone =>
        return [], PyNone;
      case Val(keys) =>
        if keys == [] {
          return [], PyNone;
        }
        log := RelocateKeys(job, keys, accepts);
        r := PyNone;
    }
  }

  /** As written the scan never returns a non-empty list, so a relocation issues
      no copy and no delete, whatever the source bucket holds; it ends with
      `None`, or with the RegexError of a pattern `re` rejects. */
  lemma RelocateAsWritten(listing: Listing, job: Relocation, pattern: Pattern, accepts: Call -> bool)
    ensures RelocateFromScan(job, ScanOutcome(listing, job.sourcePrefix, pattern, "key"), accepts) == []
  {
    ScanOutcomeCases(listing, job.sourcePrefix, pattern, "key");
  }

  /** The source keys of the copies in a log, in order. */
  function CopySources(log: seq<Event>): seq<string>
    decreases |log|
  {
    if log == [] then []
    else CopySources(log[..|log| - 1]) + (if log[|log| - 1].call.Copy? then [log[|log| - 1].call.sourceKey] else [])
  }

  lemma {:induction false} CopySourcesConcat(a: seq<Event>, b: seq<Event>)
    ensures CopySources(a + b) == CopySources(a) + CopySources(b)
    decreases |b|
  {
    if b == [] {
      assert a + b == a;
    } else {
      assert (a + b)[..|a + b| - 1] == a + b[..|b| - 1];
      CopySourcesConcat(a, b[..|b| - 1]);
    }
  }

  /** The events of one key hold exactly one copy, of that key. */
  lemma KeyEventsCopyOnce(job: Relocation, key: string, accepts: Call -> bool)
    ensures CopySources(KeyEvents(job, key, accepts)) == [key]
  {
    var events := KeyEvents(job, key, accepts);
    assert CopySources([events[0]]) == [key] by {
      assert [events[0]][..0] == [];
    }
    if |events| == 2 {
      assert events[..1] == [events[0]];
    } else {
      assert events == [events[0]];
    }
  }

  /** Every copy in the log goes where the job sends its key: from the source
      bucket to the target bucket, under the target key rule. */
  ghost predicate CopiesTargeted(job: Relocation, log: seq<Event>) {
    forall j :: 0 <= j < |log| && log[j].call.Copy? ==> log[j].call == CopyOf(job, log[j].call.sourceKey)
  }

  lemma {:induction false} RelocateCopyTargets(job: Relocation, keys: seq<string>, accepts: Call -> bool)
    ensures CopiesTargeted(job, RelocateLog(job, keys, accepts))
    decreases |keys|
  {
    if keys != [] {
      var init := keys[..|keys| - 1];
      var front := RelocateLog(job, init, accepts);
      var events := KeyEvents(job, keys[|keys| - 1], accepts);
      RelocateCopyTargets(job, init, accepts);
      var log := front + events;
      forall j | 0 <= j < |log| && log[j].call.Copy? ensures log[j].call == CopyOf(job, log[j].call.sourceKey) {
        if j >= |front| {
          var key := keys[|keys| - 1];
          assert log[j] == events[j - |front|];
          assert log[j].call == CopyOf(job, key);
        } else {
          assert log[j] == front[j];
        }
      }
    }
  }

  /** Every key is attempted, in input order, whatever happened to earlier keys:
      the copies in the log are exactly one per key. */
  lemma {:induction false} RelocateCopiesEveryKey(job: Relocation, keys: seq<string>, accepts: Call -> bool)
    ensures CopySources(RelocateLog(job, keys, accepts)) == keys
    decreases |keys|
  {
    if keys != [] {
      var init := keys[..|keys| - 1];
      var events := KeyEvents(job, keys[|keys| - 1], accepts);
      assert RelocateLog(job, keys, accepts) == RelocateLog(job, init, accepts) + events;
      RelocateCopiesEveryKey(job, init, accepts);
      CopySourcesConcat(RelocateLog(job, init, accepts), events);
      KeyEventsCopyOnce(job, keys[|keys| - 1], accepts);
      assert keys == init + [keys[|keys| - 1]];
    }
  }

  /** A delete happens only in 'move' mode, only on the source bucket, and
      immediately after a copy of the same key that returned. */
  ghost predicate DeletesFollowCopies(job: Relocation, log: seq<Event>) {
    forall j :: 0 <= j < |log| && log[j].call.Delete? ==>
      && job.option == "move"
      && log[j].call.bucket == job.sourceBucket
      && 0 < j && log[j - 1].ok && log[j - 1].call == CopyOf(job, log[j].call.key)
  }

  /** In 'move' mode every copy that returned is immediately followed by the
      delete of its source object. */
  ghost predicate CopiesFollowedByDeletes(job: Relocation, log: seq<Event>) {
    forall j :: 0 <= j < |log| && log[j].ok && log[j].call.Copy? ==>
      j + 1 < |log| && log[j + 1].call == Delete(job.sourceBucket, log[j].call.sourceKey)
  }

  lemma {:induction false} RelocateDeletes(job: Relocation, keys: seq<string>, accepts: Call -> bool)
    ensures DeletesFollowCopies(job, RelocateLog(job, keys, accepts))
    ensures job.option == "move" ==> CopiesFollowedByDeletes(job, RelocateLog(job, keys, accepts))
    decreases |keys|
  {
    if keys != [] {
      var init := keys[..|keys| - 1];
      var before := RelocateLog(job, init, accepts);
      var events := KeyEvents(job, keys[|keys| - 1], accepts);
      var log := before + events;
      RelocateDeletes(job, init, accepts);
      forall j | 0 <= j < |log| && log[j].call.Delete?
        ensures job.option == "move" && log[j].call.bucket == job.sourceBucket
        ensures 0 < j && log[j - 1].ok && log[j - 1].call == CopyOf(job, log[j].call.key)
      {
        if j < |before| {
          assert log[j] == before[j] && log[j - 1] == before[j - 1];
        } else {
          assert j == |before| + 1;
        }
      }
      if job.option == "move" {
        forall j | 0 <= j < |log| && log[j].ok && log[j].call.Copy?
          ensures j + 1 < |log| && log[j + 1].call == Delete(job.sourceBucket, log[j].call.sourceKey)
        {
          if j < |before| {
            assert log[j] == before[j] && log[j + 1] == before[j + 1];
          } else {
            assert j == |before|;
          }
        }
      }
    }
  }

  /** In 'copy' mode (and under any option other than 'move') no delete is ever
      issued. */
  lemma RelocateCopyModeNeverDeletes(job: Relocation, keys: seq<string>, accepts: Call -> bool)
    requires job.option != "move"
    ensures forall j :: 0 <= j < |RelocateLog(job, keys, accepts)| ==> !RelocateLog(job, keys, accepts)[j].call.Delete?
  {
    RelocateDeletes(job, keys, accepts);
  }

  /** With a scan that returned its matches, a relocation would attempt every
      matching key of the listing in order; as written it attempts none. */
  lemma RelocateIntended(listing: Listing, job: Relocation, pattern: Pattern, accepts: Call -> bool)
    requires pattern.compiles && listing.Pages?
    ensures var log := RelocateFromScan(job, ScanIntended(listing, job.sourcePrefix, pattern, "key"), accepts);
            CopySources(log) == Matches(listing.pages, job.sourcePrefix, pattern.search)
  {
    ScanIntendedSpec(listing, job.sourcePrefix, pattern, "key");
    var matches := Matches(listing.pages, job.sourcePrefix, pattern.search);
    if matches != [] {
      RelocateCopiesEveryKey(job, matches, accepts);
    }
  }

  /** `copy_files_including_regex_between_s3_buckets`: a relocation with the
      option 'copy', which never deletes. */
  method CopyFilesBetweenBuckets(found: Py<seq<string>>, sourceBucket: string, targetBucket: string,
                                 sourcePrefix: string, targetPrefix: string, accepts: Call -> bool)
    returns (log: seq<Event>, r: Py<()>)
    ensures log == RelocateFromScan(Relocation(sourceBucket, targetBucket, sourcePrefix, targetPrefix, "copy"), found, accepts)
    ensures forall j :: 0 <= j < |log| ==> !log[j].call.Delete?
    ensures r == if found.Raise? then Raise(found.e) else PyNone
  {
    var job := Relocation(sourceBucket, targetBucket, sourcePrefix, targetPrefix, "copy");
    log, r := RelocateFiles(found, job, accepts);
    if found.Val? && found.v != [] {
      RelocateCopyModeNeverDeletes(job, found.v, accepts);
    }
  }

  /** `move_files_including_regex_between_s3_buckets`: a relocation with the
      option 'move', which deletes each source object right after its copy
      returned, and only then. */
  method MoveFilesBetweenBuckets(found: Py<seq<string>>, sourceBucket: string, targetBucket: string,
                                 sourcePrefix: string, targetPrefix: string, accepts: Call -> bool)
    returns (log: seq<Event>, r: Py<()>)
    ensures var job := Relocation(sourceBucket, targetBucket, sourcePrefix, targetPrefix, "move");
            && log == RelocateFromScan(job, found, accepts)
            && DeletesFollowCopies(job, log)
            && CopiesFollowedByDeletes(job, log)
    ensures r == if found.Raise? then Raise(found.e) else PyNone
  {
    var job := Relocation(sourceBucket, targetBucket, sourcePrefix, targetPrefix, "move");
    log, r := RelocateFiles(found, job, accepts);
    if found.Val? && found.v != [] {
      RelocateDeletes(job, found.v, accepts);
    }
  }

  // ---------------------------------------------------------------------------
  // create_subfolder_in_bucket

  /** `create_subfolder_in_bucket`: `bucket_subfolder[-1]` raises IndexError on
      the empty name; otherwise a '/' is appended unless present and an empty
      object is put under that key. */
  method CreateSubfolder(bucket: string, subfolder: string, accepts: Call -> bool)
    returns (log: seq<Event>, r: Py<()>)
    ensures subfolder == "" ==> log == [] && r == Raise(IndexError)
    ensures subfolder != "" ==>
              && log == [Event(Put(bucket, NormalizePrefix(subfolder)), accepts(Put(bucket, NormalizePrefix(subfolder))))]
              && r == if log[0].ok then PyNone else Raise(ClientError)
    ensures subfolder != "" ==> EndsWithSlash(log[0].call.key) && log[0].call.key[..|subfolder|] == subfolder
  {
    if subfolder == "" {
      return [], Raise(IndexError);
    }
    var key := subfolder;
    if key[|key| - 1] != '/' {
      key := key + "/";
    }
    var put := Put(bucket, key);
    log := [Event(put, accepts(put))];
    r := if accepts(put) then PyNone else Raise(ClientError);
  }
}
