/** `scan_files_including_regex`: the entries of one local directory whose name
    the pattern finds, as names or as paths under the folder, sorted. The
    directory listing (`os.scandir`) is an input: the entry names in whatever
    order the file system yields them. */
module LocalScan {
  import opened Python
  import opened Paths
  import opened Order

  /** `[name for name in entries if re.findall(regex, name)]`. */
  function Found(entries: seq<string>, search: string -> bool): seq<string>
    decreases |entries|
  {
    if entries == [] then []
    else (if search(entries[0]) then [entries[0]] else []) + Found(entries[1..], search)
  }

  lemma {:induction false} FoundMembers(entries: seq<string>, search: string -> bool, x: string)
    ensures x in Found(entries, search) <==> x in entries && search(x)
    ensures multiset(Found(entries, search))[x] == if search(x) then multiset(entries)[x] else 0
    decreases |entries|
  {
    if entries != [] {
      FoundMembers(entries[1..], search, x);
      assert entries == [entries[0]] + entries[1..];
    }
  }

  /** `[os.path.join(folder, name) for name in names]`. */
  function JoinAll(folder: string, names: seq<string>): (r: seq<string>)
    decreases |names|
  {
    if names == [] then [] else [Join(folder, names[0])] + JoinAll(folder, names[1..])
  }

  /** Names without '/' all join to the normalised folder followed by the name. */
  lemma {:induction false} JoinAllNames(folder: string, names: seq<string>)
    requires forall i :: 0 <= i < |names| ==> '/' !in names[i]
    ensures JoinAll(folder, names) == PrefixAll(NormalizePrefix(folder), names)
    decreases |names|
  {
    if names != [] {
      JoinName(folder, names[0]);
      JoinAllNames(folder, names[1..]);
    }
  }

  /** The function's result: a pattern `re` rejects raises as soon as there is an
      entry to test; option 'name' gives the sorted names, 'path' the sorted
      joined paths; any other option raises KeyError from the mapping dict. */
  function ScanLocal(folder: string, entries: seq<string>, pattern: Pattern, option: string): Py<seq<string>> {
    if !pattern.compiles && entries != [] then Raise(RegexError)
    else
      var found := Found(entries, pattern.search);
      if option == "name" then Val(Sort(found))
      else if option == "path" then Val(Sort(JoinAll(folder, found)))
      else Raise(KeyError)
  }

  /** Error cases: exactly the rejected pattern (with something to test) and the
      unknown option. */
  lemma ScanLocalErrors(folder: string, entries: seq<string>, pattern: Pattern, option: string)
    ensures ScanLocal(folder, entries, pattern, option).Raise? <==>
              (!pattern.compiles && entries != []) || (option != "name" && option != "path")
    ensures !ScanLocal(folder, entries, pattern, option).PyNone?
    ensures !pattern.compiles && entries != [] ==> ScanLocal(folder, entries, pattern, option) == Raise(RegexError)
    ensures (pattern.compiles || entries == []) && option != "name" && option != "path" ==>
              ScanLocal(folder, entries, pattern, option) == Raise(KeyError)
  {
  }

  /** With option 'name' the result is ascending, and it holds each entry the
      pattern finds, as often as it is listed, and nothing else. */
  lemma ScanLocalNames(folder: string, entries: seq<string>, pattern: Pattern)
    requires pattern.compiles
    ensures ScanLocal(folder, entries, pattern, "name").Val?
    ensures Sorted(ScanLocal(folder, entries, pattern, "name").v)
    ensures forall x :: x in ScanLocal(folder, entries, pattern, "name").v <==> x in entries && pattern.search(x)
    ensures forall x :: multiset(ScanLocal(folder, entries, pattern, "name").v)[x] ==
                        if pattern.search(x) then multiset(entries)[x] else 0
  {
    var found := Found(entries, pattern.search);
    SortSpec(found);
    forall x ensures (x in Sort(found) <==> x in entries && pattern.search(x))
                 && multiset(Sort(found))[x] == if pattern.search(x) then multiset(entries)[x] else 0
    {
      FoundMembers(entries, pattern.search, x);
      assert x in Sort(found) <==> x in multiset(Sort(found));
    }
  }

  /** With option 'path' (and entry names, which never hold '/') the result is the
      name result with the normalised folder in front of each name: sorting the
      paths orders them by name, and each path's last segment is its name. */
  lemma ScanLocalPaths(folder: string, entries: seq<string>, pattern: Pattern)
    requires pattern.compiles
    requires forall i :: 0 <= i < |entries| ==> '/' !in entries[i]
    ensures ScanLocal(folder, entries, pattern, "path") ==
              Val(PrefixAll(NormalizePrefix(folder), ScanLocal(folder, entries, pattern, "name").v))
    ensures forall i :: 0 <= i < |ScanLocal(folder, entries, pattern, "path").v| ==>
              LastSegment(ScanLocal(folder, entries, pattern, "path").v[i]) == ScanLocal(folder, entries, pattern, "name").v[i]
  {
    var found := Found(entries, pattern.search);
    forall i | 0 <= i < |found| ensures '/' !in found[i] {
      FoundMembers(entries, pattern.search, found[i]);
    }
    JoinAllNames(folder, found);
    SortPrefixAll(NormalizePrefix(folder), found);
    var names := Sort(found);
    SortSpec(found);
    forall i | 0 <= i < |names| ensures LastSegment(NormalizePrefix(folder) + names[i]) == names[i] {
      assert names[i] in multiset(found);
      JoinName(folder, names[i]);
      LastSegmentOfJoin(folder, names[i]);
    }
  }
}
