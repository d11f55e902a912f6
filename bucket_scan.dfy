/** `scan_files_in_bucket_by_regex`: page through the listing of a bucket under a
    prefix, keep the keys the pattern finds, drop the folder marker, and map the
    survivors to keys or to bare names. */
module BucketScan {
  import opened Python
  import opened Paths

  /** One page of a `list_objects_v2` listing; `Contents` is absent from a page
      with no objects. Each entry is the object's key. */
  datatype Page = Page(contents: Option<seq<string>>)

  /** What the paginator yields for the requested bucket and prefix, or that the
      client raised while paging (missing or partial credentials, or any other
      failure). */
  datatype Listing = Pages(pages: seq<Page>) | ListingFails

  function Entries(page: Page): seq<string> {
    if page.contents.Some? then page.contents.value else []
  }

  /** Every listed key, page after page, entry after entry. */
  function AllKeys(pages: seq<Page>): seq<string>
    decreases |pages|
  {
    if pages == [] then [] else AllKeys(pages[..|pages| - 1]) + Entries(pages[|pages| - 1])
  }

  /** The filter of the scan: the pattern finds the key and it is not the marker. */
  predicate Kept(key: string, marker: string, search: string -> bool) {
    search(key) && key != marker
  }

  /** The keys, in order, that the pattern finds and that are not the marker. */
  function Keep(keys: seq<string>, marker: string, search: string -> bool): seq<string>
    decreases |keys|
  {
    if keys == [] then []
    else
      var last := keys[|keys| - 1];
      Keep(keys[..|keys| - 1], marker, search) + (if Kept(last, marker, search) then [last] else [])
  }

  lemma {:induction false} KeepConcat(a: seq<string>, b: seq<string>, marker: string, search: string -> bool)
    ensures Keep(a + b, marker, search) == Keep(a, marker, search) + Keep(b, marker, search)
    decreases |b|
  {
    if b == [] {
      assert a + b == a;
    } else {
      assert (a + b)[..|a + b| - 1] == a + b[..|b| - 1];
      KeepConcat(a, b[..|b| - 1], marker, search);
    }
  }

  /** The keys the scan collects before mapping them (the `files` list). */
  function Matches(pages: seq<Page>, prefix: string, search: string -> bool): seq<string> {
    Keep(AllKeys(pages), NormalizePrefix(prefix), search)
  }

  /** A key is kept exactly when it is listed, the pattern finds it and it differs
      from the normalised prefix; so the folder marker itself never comes back. */
  lemma {:induction false} KeepMembers(keys: seq<string>, marker: string, search: string -> bool, x: string)
    ensures x in Keep(keys, marker, search) <==> x in keys && search(x) && x != marker
    decreases |keys|
  {
    if keys != [] {
      var init := keys[..|keys| - 1];
      KeepMembers(init, marker, search, x);
      assert keys == init + [keys[|keys| - 1]];
    }
  }

  /** Keeping only drops keys: the result is never
      longer than the listing, equals it when every key is kept, and is strictly
      shorter as soon as one key is dropped. */
  lemma {:induction false} KeepOnlyDrops(keys: seq<string>, marker: string, search: string -> bool)
    ensures |Keep(keys, marker, search)| <= |keys|
    ensures (forall i :: 0 <= i < |keys| ==> Kept(keys[i], marker, search)) ==> Keep(keys, marker, search) == keys
    ensures (exists i :: 0 <= i < |keys| && !Kept(keys[i], marker, search)) ==> |Keep(keys, marker, search)| < |keys|
    decreases |keys|
  {
    if keys != [] {
      var init := keys[..|keys| - 1];
      var last := keys[|keys| - 1];
      KeepOnlyDrops(init, marker, search);
      if forall i :: 0 <= i < |keys| ==> Kept(keys[i], marker, search) {
        forall i | 0 <= i < |init| ensures Kept(init[i], marker, search) {
          assert init[i] == keys[i];
        }
        assert keys == init + [last];
      }
      if exists i :: 0 <= i < |keys| && !Kept(keys[i], marker, search) {
        var i :| 0 <= i < |keys| && !Kept(keys[i], marker, search);
        if i < |init| {
          assert init[i] == keys[i];
        }
      }
    }
  }

  lemma MatchesMembers(pages: seq<Page>, prefix: string, search: string -> bool, x: string)
    ensures x in Matches(pages, prefix, search) <==> x in AllKeys(pages) && search(x) && x != NormalizePrefix(prefix)
    ensures NormalizePrefix(prefix) !in Matches(pages, prefix, search)
  {
    KeepMembers(AllKeys(pages), NormalizePrefix(prefix), search, x);
    KeepMembers(AllKeys(pages), NormalizePrefix(prefix), search, NormalizePrefix(prefix));
  }

  /** `[file.split('/')[-1] for file in files]`: the i-th name is the text of the
      i-th key after its last '/'. */
  function Names(files: seq<string>): (r: seq<string>)
    ensures |r| == |files|
    ensures forall i :: 0 <= i < |r| ==> r[i] == LastSegment(files[i]) && '/' !in r[i]
  {
    seq(|files|, i requires 0 <= i < |files| => LastSegment(files[i]))
  }

  /** `mapping_option[option]`: the list for 'name' or 'key', None (the KeyError
      branch) for any other option. */
  function Mapped(files: seq<string>, option: string): Option<seq<string>> {
    if option == "name" then Some(Names(files))
    else if option == "key" then Some(files)
    else None
  }

  /** What the function returns as written. A pattern `re` rejects raises before
      the `try`; a failing listing, no match, and an unknown option all return
      `[]`; a successful match falls off the end of the function and returns
      `None`. */
  function ScanOutcome(listing: Listing, prefix: string, pattern: Pattern, option: string): Py<seq<string>> {
    if !pattern.compiles then Raise(RegexError)
    else if listing.ListingFails? then Val([])
    else
      var files := Matches(listing.pages, prefix, pattern.search);
      if files == [] then Val([])
      else if Mapped(files, option).None? then Val([])
      else PyNone
  }

  /** The function as its docstring describes it: the mapped list is returned. */
  function ScanIntended(listing: Listing, prefix: string, pattern: Pattern, option: string): Py<seq<string>> {
    if !pattern.compiles then Raise(RegexError)
    else if listing.ListingFails? then Val([])
    else
      var files := Matches(listing.pages, prefix, pattern.search);
      if files == [] then Val([])
      else if Mapped(files, option).None? then Val([])
      else Val(Mapped(files, option).value)
  }

  /** The inner loop of the scan: append each entry of one page that the pattern
      finds and that is not the marker. */
  method CollectPage(files: seq<string>, entries: seq<string>, marker: string, search: string -> bool)
    returns (collected: seq<string>)
    ensures collected == files + Keep(entries, marker, search)
  {
    collected := files;
    var e := 0;
    while e < |entries|
      invariant 0 <= e <= |entries|
      invariant collected == files + Keep(entries[..e], marker, search)
    {
      var key := entries[e];
      assert entries[..e + 1][..e] == entries[..e];
      if search(key) && key != marker {
        collected := collected + [key];
      }
      e := e + 1;
    }
    assert entries[..e] == entries;
  }

  /** The scan as the source runs it: a loop over the pages collects the kept
      keys of each page that has `Contents`, then the option is applied. */
  method ScanFilesInBucket(listing: Listing, prefix: string, pattern: Pattern, option: string)
    returns (r: Py<seq<string>>)
    ensures r == ScanOutcome(listing, prefix, pattern, option)
  {
    var marker := NormalizePrefix(prefix);
    if !pattern.compiles {
      return Raise(RegexError);
    }
    if listing.ListingFails? {
      return Val([]);
    }
    var pages := listing.pages;
    var files: seq<string> := [];
    var p := 0;
    while p < |pages|
      invariant 0 <= p <= |pages|
      invariant files == Keep(AllKeys(pages[..p]), marker, pattern.search)
    {
      if pages[p].contents.Some? {
        files := CollectPage(files, pages[p].contents.value, marker, pattern.search);
      }
      assert pages[..p + 1][..p] == pages[..p];
      KeepConcat(AllKeys(pages[..p]), Entries(pages[p]), marker, pattern.search);
      p := p + 1;
    }
    assert pages[..p] == pages;
    if files != [] {
      var mapped := Mapped(files, option);
      if mapped.None? {
        return Val([]);
      }
      files := mapped.value;
      // no return statement here: the call yields None
      r := PyNone;
    } else {
      r := Val([]);
    }
  }

  /** The as-written scan never hands back a match: every outcome is an
      exception, `None`, or the empty list, and `None` comes exactly when
      something matched under a known option. */
  lemma ScanOutcomeCases(listing: Listing, prefix: string, pattern: Pattern, option: string)
    ensures ScanOutcome(listing, prefix, pattern, option).Raise? <==> !pattern.compiles
    ensures ScanOutcome(listing, prefix, pattern, option).Raise? ==> ScanOutcome(listing, prefix, pattern, option).e == RegexError
    ensures ScanOutcome(listing, prefix, pattern, option).Val? ==> ScanOutcome(listing, prefix, pattern, option).v == []
    ensures ScanOutcome(listing, prefix, pattern, option).PyNone? <==>
              pattern.compiles && listing.Pages? && Matches(listing.pages, prefix, pattern.search) != [] &&
              (option == "name" || option == "key")
  {
  }

  /** The intended scan returns exactly the matches (or their names) when the
      pattern compiles and the listing succeeds; for every input it has the same
      outcome as written wherever the source returns (a rejected pattern and a
      failing listing included), and the mapped list where the source falls
      through to `None`. */
  lemma ScanIntendedSpec(listing: Listing, prefix: string, pattern: Pattern, option: string)
    ensures pattern.compiles && listing.Pages? && option == "key" ==>
              ScanIntended(listing, prefix, pattern, option) == Val(Matches(listing.pages, prefix, pattern.search))
    ensures pattern.compiles && listing.Pages? && option == "name" ==>
              ScanIntended(listing, prefix, pattern, option) == Val(Names(Matches(listing.pages, prefix, pattern.search)))
    ensures pattern.compiles && listing.Pages? && option != "key" && option != "name" ==>
              ScanIntended(listing, prefix, pattern, option) == Val([])
    ensures ScanOutcome(listing, prefix, pattern, option) != ScanIntended(listing, prefix, pattern, option) <==>
              ScanOutcome(listing, prefix, pattern, option).PyNone?
  {
  }

  /** One matching key is enough to lose the result: listing "data/a.csv" under
      prefix "data" with a pattern that finds it yields `None`, while the
      docstring promises ["data/a.csv"]. */
  lemma FallThroughExample(search: string -> bool)
    requires search("data/a.csv")
    ensures ScanOutcome(Pages([Page(Some(["data/a.csv"]))]), "data", Pattern(true, search), "key") == PyNone
    ensures ScanIntended(Pages([Page(Some(["data/a.csv"]))]), "data", Pattern(true, search), "key") == Val(["data/a.csv"])
  {
    var pages := [Page(Some(["data/a.csv"]))];
    assert pages[..0] == [];
    assert AllKeys(pages) == ["data/a.csv"];
    assert NormalizePrefix("data") == "data/";
    assert Keep(["data/a.csv"], "data/", search) == ["data/a.csv"] by {
      assert ["data/a.csv"][..0] == [];
    }
  }
}
