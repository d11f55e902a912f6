/** The two dataset helpers at the end of s3_file_control_utils.py: the prefix
    under which `locate_menu_datasets_from_s3_to_ec2web` looks for a menu's
    dataset, and `merge_timeseries_csv_files`, which appends the rows of a newer
    time series that come after the last date of an older one and derives the
    name and folder of the merged file. */
module Datasets {
  import opened Python
  import opened Paths
  import opened Strings
  import opened BucketScan
  import opened Transfers

  // ---------------------------------------------------------------------------
  // locate_menu_datasets_from_s3_to_ec2web

  const DatasetBucket := "dataset-system"
  const DefaultStart := "2020-01-01"

  /** `arg or default` for a date argument. */
  function OrDefault(arg: Option<string>, default: string): string {
    if Truthy(arg) then arg.value else default
  }

  /** A date of the prefix: the argument when it is truthy, otherwise the
      default, with every '-' removed. */
  function DateField(arg: Option<string>, default: string): (r: string)
    ensures '-' !in r
  {
    RemoveChar(OrDefault(arg, default), '-')
  }

  /** The bucket prefix of a menu's dataset. A missing end date is yesterday and
      a missing save date today (both supplied by the caller, as `%Y%m%d` text).
      Only the menu codes "2160" (a time series from the start to the end date)
      and "2205" (a snapshot at the end date) are known; any other code is a
      missing key of the mapping. */
  function MenuPrefix(code: string, start: Option<string>, end: Option<string>, save: Option<string>,
                      yesterday: string, today: string): (r: Py<string>)
    ensures r.Raise? <==> code != "2160" && code != "2205"
    ensures r.Raise? ==> r.e == KeyError
    ensures !r.PyNone?
  {
    var from := DateField(start, DefaultStart);
    var to := DateField(end, yesterday);
    var saved := DateField(save, today);
    if code == "2160" then Val("dataset-timeseries-menu2160-from" + from + "-to" + to + "-save" + saved)
    else if code == "2205" then Val("dataset-snapshot-menu2205-at" + to + "-save" + saved)
    else Raise(KeyError)
  }

  /** `y-m-d` without its dashes is `ymd`, for dash-free parts. */
  lemma DashedDate(y: string, m: string, d: string)
    requires '-' !in y && '-' !in m && '-' !in d
    ensures RemoveChar(y + "-" + m + "-" + d, '-') == y + m + d
  {
    assert RemoveChar("-", '-') == [] by {
      assert "-"[1..] == [];
    }
    var s1 := y + "-";
    RemoveCharConcat(y, "-", '-');
    assert RemoveChar(s1, '-') == y;
    var s2 := s1 + m;
    RemoveCharConcat(s1, m, '-');
    assert RemoveChar(s2, '-') == y + m;
    var s3 := s2 + "-";
    RemoveCharConcat(s2, "-", '-');
    assert RemoveChar(s3, '-') == y + m;
    RemoveCharConcat(s3, d, '-');
  }

  /** An end date written `y-m-d` lands in the prefix as `ymd`, the same as
      when it is written without dashes; a missing or empty end date is
      yesterday's. */
  lemma MenuPrefixEndDate(code: string, start: Option<string>, save: Option<string>,
                          y: string, m: string, d: string, yesterday: string, today: string)
    requires '-' !in y && '-' !in m && '-' !in d && y + m + d != ""
    ensures DateField(Some(y + "-" + m + "-" + d), yesterday) == y + m + d
    ensures MenuPrefix(code, start, Some(y + "-" + m + "-" + d), save, yesterday, today)
              == MenuPrefix(code, start, Some(y + m + d), save, yesterday, today)
    ensures MenuPrefix(code, start, None, save, yesterday, today)
              == MenuPrefix(code, start, Some(""), save, yesterday, today)
              == MenuPrefix(code, start, Some(yesterday), save, yesterday, today)
  {
    DashedDate(y, m, d);
    var dashed := DateField(Some(y + "-" + m + "-" + d), yesterday);
    var plain := DateField(Some(y + m + d), yesterday);
    assert dashed == plain;
  }

  /** `locate_menu_datasets_from_s3_to_ec2web`: download the files of the bucket
      "dataset-system" under the menu's prefix that the pattern `menu<code>`
      finds into the local folder `dataset-menu<code>`. `compile` stands for
      `re`; `listing` is what the bucket lists under the prefix. */
  method LocateMenuDatasets(code: string, start: Option<string>, end: Option<string>, save: Option<string>,
                            yesterday: string, today: string, listing: Listing,
                            compile: string -> Pattern, accepts: Call -> bool)
    returns (log: seq<Event>, r: Py<()>)
    ensures code != "2160" && code != "2205" ==> r == Raise(KeyError)
    ensures log == []
    ensures r.Raise? || r == PyNone
    ensures code == "2160" || code == "2205" ==>
              var found := ScanOutcome(listing, NormalizePrefix(MenuPrefix(code, start, end, save, yesterday, today).v),
                                       compile("menu" + code), "key");
              && (found.Raise? ==> r == Raise(found.e))
              && (found.PyNone? ==> r == Raise(TypeError))
              && (found.Val? ==> r == PyNone)
  {
    var prefix := MenuPrefix(code, start, end, save, yesterday, today);
    if prefix.Raise? {
      return [], Raise(prefix.e);
    }
    log, r := DownloadFiles(listing, DatasetBucket, compile("menu" + code), "dataset-menu" + code, prefix.v, None, accepts);
  }

  // ---------------------------------------------------------------------------
  // merge_timeseries_csv_files

  /** A row as `pd.read_csv(..., dtype=str)` reads it: the text of the date
      column and the other cells. */
  datatype Row<C> = Row(date: string, cells: C)

  /** A row after `pd.to_datetime`: the date is a day number, ordered like the
      calendar. */
  datatype Dated<C> = Dated(day: int, cells: C)

  /** `pd.to_datetime` on the date column: every date must parse, or the call
      raises. `parse` stands for the parser of one date. */
  function ParseAll<C>(rows: seq<Row<C>>, parse: string -> Option<int>): (r: Option<seq<Dated<C>>>)
    ensures r.Some? <==> forall i :: 0 <= i < |rows| ==> parse(rows[i].date).Some?
    ensures r.Some? ==> |r.value| == |rows|
    ensures r.Some? ==> forall i :: 0 <= i < |rows| ==> r.value[i] == Dated(parse(rows[i].date).value, rows[i].cells)
  {
    if forall i :: 0 <= i < |rows| ==> parse(rows[i].date).Some? then
      Some(seq(|rows|, i requires 0 <= i < |rows| => Dated(parse(rows[i].date).value, rows[i].cells)))
    else None
  }

  /** `.dt.strftime('%Y-%m-%d')` on the date column. */
  function FormatAll<C>(rows: seq<Dated<C>>, format: int -> string): (r: seq<Row<C>>)
    ensures |r| == |rows|
    ensures forall i :: 0 <= i < |rows| ==> r[i] == Row(format(rows[i].day), rows[i].cells)
  {
    seq(|rows|, i requires 0 <= i < |rows| => Row(format(rows[i].day), rows[i].cells))
  }

  /** `new_data[new_data[date] > old_last_date]`: the rows strictly after the
      boundary, in their order. */
  function After<C>(rows: seq<Dated<C>>, boundary: int): seq<Dated<C>>
  {
    if rows == [] then []
    else (if rows[0].day > boundary then [rows[0]] else []) + After(rows[1..], boundary)
  }

  /** The kept rows are exactly the rows after the boundary. */
  lemma {:induction false} AfterMembers<C>(rows: seq<Dated<C>>, boundary: int)
    ensures |After(rows, boundary)| <= |rows|
    ensures forall x :: x in After(rows, boundary) ==> x in rows && x.day > boundary
    ensures forall x :: x in rows && x.day > boundary ==> x in After(rows, boundary)
  {
    if rows != [] {
      AfterMembers(rows[1..], boundary);
      assert rows == [rows[0]] + rows[1..];
    }
  }

  /** Filtering distributes over concatenation: the order of the rows is kept. */
  lemma {:induction false} AfterConcat<C>(a: seq<Dated<C>>, b: seq<Dated<C>>, boundary: int)
    ensures After(a + b, boundary) == After(a, boundary) + After(b, boundary)
  {
    if a == [] {
      assert a + b == b;
    } else {
      assert (a + b)[1..] == a[1..] + b;
      AfterConcat(a[1..], b, boundary);
    }
  }

  /** With no row after the boundary, nothing is kept. */
  lemma {:induction false} AfterNone<C>(rows: seq<Dated<C>>, boundary: int)
    requires forall i :: 0 <= i < |rows| ==> rows[i].day <= boundary
    ensures After(rows, boundary) == []
  {
    if rows != [] {
      AfterNone(rows[1..], boundary);
    }
  }

  /** Day `a` comes before day `b`: strictly, or with equal days allowed. */
  predicate Precedes(a: int, b: int, strict: bool) {
    if strict then a < b else a <= b
  }

  /** Rows in date order: strictly ascending (no date twice) or non-decreasing. */
  predicate InOrder<C>(rows: seq<Dated<C>>, strict: bool) {
    forall i, j :: 0 <= i < j < |rows| ==> Precedes(rows[i].day, rows[j].day, strict)
  }

  /** In a table in date order the first row comes before every other. */
  lemma HeadFirst<C>(rows: seq<Dated<C>>, x: Dated<C>, strict: bool)
    requires rows != [] && x in rows[1..] && InOrder(rows, strict)
    ensures Precedes(rows[0].day, x.day, strict)
  {
  }

  /** A row in date order followed by rows in date order that all come after it
      is a table in date order. */
  lemma ConsInOrder<C>(head: Dated<C>, tail: seq<Dated<C>>, strict: bool)
    requires InOrder(tail, strict)
    requires forall k :: 0 <= k < |tail| ==> Precedes(head.day, tail[k].day, strict)
    ensures InOrder([head] + tail, strict)
  {
  }

  /** A filter keeps the order of its input. */
  lemma {:induction false} AfterKeepsOrder<C>(rows: seq<Dated<C>>, boundary: int, strict: bool)
    requires InOrder(rows, strict)
    ensures InOrder(After(rows, boundary), strict)
  {
    if rows != [] {
      var rest := rows[1..];
      var tail := After(rest, boundary);
      assert forall i :: 0 <= i < |rest| ==> rest[i] == rows[i + 1];
      AfterKeepsOrder(rest, boundary, strict);
      if rows[0].day > boundary {
        AfterMembers(rest, boundary);
        forall k | 0 <= k < |tail| ensures Precedes(rows[0].day, tail[k].day, strict) {
          assert tail[k] in tail;
          HeadFirst(rows, tail[k], strict);
        }
        ConsInOrder(rows[0], tail, strict);
      }
    }
  }

  /** The rows of the merge on parsed dates: all old rows, then the new rows
      strictly after the old table's last row. */
  function MergeDated<C>(oldRows: seq<Dated<C>>, newRows: seq<Dated<C>>): (r: seq<Dated<C>>)
    requires oldRows != []
    ensures |oldRows| <= |r| <= |oldRows| + |newRows|
    ensures r[..|oldRows|] == oldRows
  {
    AfterMembers(newRows, oldRows[|oldRows| - 1].day);
    oldRows + After(newRows, oldRows[|oldRows| - 1].day)
  }

  /** What the merge keeps: every old row in place, and after them exactly the
      new rows later than the old last date, in their order, each later than it. */
  lemma MergeDatedRows<C>(oldRows: seq<Dated<C>>, newRows: seq<Dated<C>>)
    requires oldRows != []
    ensures var b := oldRows[|oldRows| - 1].day;
            var r := MergeDated(oldRows, newRows);
            && r[|oldRows|..] == After(newRows, b)
            && (forall j :: |oldRows| <= j < |r| ==> r[j] in newRows && r[j].day > b)
            && (forall x :: x in newRows && x.day > b ==> x in r[|oldRows|..])
  {
    var b := oldRows[|oldRows| - 1].day;
    var added := After(newRows, b);
    AfterMembers(newRows, b);
    var r := MergeDated(oldRows, newRows);
    assert r[|oldRows|..] == added;
    forall j | |oldRows| <= j < |r| ensures r[j] in newRows && r[j].day > b {
      assert r[j] == added[j - |oldRows|];
      assert added[j - |oldRows|] in added;
    }
  }

  /** Merging two tables that are in date order gives a table in date order, and
      when neither has a date twice the merged one has none either: in
      particular the old last date is never repeated. */
  lemma MergeDatedOrdered<C>(oldRows: seq<Dated<C>>, newRows: seq<Dated<C>>, strict: bool)
    requires oldRows != [] && InOrder(oldRows, strict) && InOrder(newRows, strict)
    ensures InOrder(MergeDated(oldRows, newRows), strict)
  {
    var n := |oldRows|;
    var b := oldRows[n - 1].day;
    var added := After(newRows, b);
    AfterKeepsOrder(newRows, b, strict);
    MergeDatedRows(oldRows, newRows);
    var r := MergeDated(oldRows, newRows);
    assert r == oldRows + added;
    forall i, j | 0 <= i < j < |r| ensures Precedes(r[i].day, r[j].day, strict) {
      if j < n {
        assert r[i] == oldRows[i] && r[j] == oldRows[j];
      } else if i < n {
        assert r[i] == oldRows[i] && oldRows[i].day <= b < r[j].day;
      } else {
        assert r[i] == added[i - n] && r[j] == added[j - n];
      }
    }
  }

  /** A new table with nothing later than the old last date leaves the old
      table as it is. */
  lemma MergeDatedNothingLater<C>(oldRows: seq<Dated<C>>, newRows: seq<Dated<C>>)
    requires oldRows != []
    requires forall i :: 0 <= i < |newRows| ==> newRows[i].day <= oldRows[|oldRows| - 1].day
    ensures MergeDated(oldRows, newRows) == oldRows
  {
    AfterNone(newRows, oldRows[|oldRows| - 1].day);
  }

  /** For a new table in date order that has rows after the boundary, the last
      added row is the new table's last row. */
  lemma {:induction false} AfterLast<C>(rows: seq<Dated<C>>, boundary: int)
    requires InOrder(rows, false) && After(rows, boundary) != []
    ensures After(rows, boundary)[|After(rows, boundary)| - 1] == rows[|rows| - 1]
  {
    var init := rows[..|rows| - 1];
    var last := rows[|rows| - 1];
    if last.day <= boundary {
      AfterNone(rows, boundary);
      assert false;
    }
    assert rows == init + [last];
    AfterConcat(init, [last], boundary);
    assert [last][1..] == [];
    assert After([last], boundary) == [last];
  }

  /** Running the merge again with the same new table (in date order) changes
      nothing: the second run finds no row after the new last date. */
  lemma MergeDatedIdempotent<C>(oldRows: seq<Dated<C>>, newRows: seq<Dated<C>>)
    requires oldRows != [] && InOrder(newRows, false)
    ensures MergeDated(MergeDated(oldRows, newRows), newRows) == MergeDated(oldRows, newRows)
  {
    var b := oldRows[|oldRows| - 1].day;
    var added := After(newRows, b);
    var r := MergeDated(oldRows, newRows);
    assert r == oldRows + added;
    if added == [] {
      assert r == oldRows;
    } else {
      AfterLast(newRows, b);
      assert r[|r| - 1] == newRows[|newRows| - 1];
      MergeDatedNothingLater(r, newRows);
    }
  }

  /** The old rows for days 1 to 3 and the new rows for days 2 to 5 merge into
      the rows for days 1 to 5. */
  lemma MergeDatedExample()
    ensures MergeDated([Dated(1, "a"), Dated(2, "b"), Dated(3, "c")],
                       [Dated(2, "b"), Dated(3, "c"), Dated(4, "d"), Dated(5, "e")])
              == [Dated(1, "a"), Dated(2, "b"), Dated(3, "c"), Dated(4, "d"), Dated(5, "e")]
  {
    var newRows := [Dated(2, "b"), Dated(3, "c"), Dated(4, "d"), Dated(5, "e")];
    assert After(newRows[3..], 3) == [Dated(5, "e")];
    assert After(newRows[2..], 3) == [Dated(4, "d"), Dated(5, "e")];
    assert After(newRows[1..], 3) == [Dated(4, "d"), Dated(5, "e")];
  }

  /** The merged table and where it is saved. */
  datatype Merged<C> = Merged(rows: seq<Row<C>>, path: string)

  /** `old_file_name.split('-to')[0]`: the old file's name up to its first "-to". */
  function BaseName(pathOld: string): (r: string)
    ensures |r| <= |LastSegment(pathOld)| && r == LastSegment(pathOld)[..|r|]
    ensures forall j :: !OccursAt(r, "-to", j)
  {
    BeforeFirst(LastSegment(pathOld), "-to")
  }

  /** `base_file_name.split('-')[0]`: the menu part of the base name. */
  function MenuName(base: string): (r: string)
    ensures |r| <= |base| && r == base[..|r|]
    ensures '-' !in r
  {
    var r := BeforeFirst(base, "-");
    assert forall k :: 0 <= k < |r| ==> r[k] != '-' by {
      forall k | 0 <= k < |r| ensures r[k] != '-' {
        assert !OccursAt(r, "-", k);
        assert r[k..k + 1] == [r[k]];
      }
    }
    r
  }

  /** The name of the merged file: the one given, or
      `<base>-to<last date without '-'>-save<today>.csv`. */
  function SaveName(pathOld: string, last: string, nameSave: Option<string>, today: string): string {
    if Truthy(nameSave) then nameSave.value
    else BaseName(pathOld) + "-to" + RemoveChar(last, '-') + "-save" + today + ".csv"
  }

  /** The folder of the merged file: the one given, or
      `./dataset-timeseries-<menu>-from<first>-to<last>-merge<today>`. */
  function SaveFolder(pathOld: string, first: string, last: string, folderSave: Option<string>, today: string): string {
    if Truthy(folderSave) then folderSave.value
    else Join(".", FolderName(MenuName(BaseName(pathOld)), first, last, today))
  }

  /** `dataset-timeseries-<menu>-from<first>-to<last>-merge<today>`, the dates
      without '-'. */
  function FolderName(menu: string, first: string, last: string, today: string): string {
    "dataset-timeseries-" + menu + "-from" + RemoveChar(first, '-') + "-to" + RemoveChar(last, '-') + "-merge" + today
  }

  /** `merge_timeseries_csv_files`. `old` and `new` are what reading the two files
      gave (`None` when reading raised, and the function then returns `None`);
      `parse` and `format` stand for `pd.to_datetime` and `strftime('%Y-%m-%d')`
      on one date, and `today` for `get_today('%Y%m%d')`. The first date of the
      folder name is taken from the row at position 1, so a merged table of one
      row raises IndexError. */
  function Merge<C>(pathOld: string, oldRows: Option<seq<Row<C>>>, newRows: Option<seq<Row<C>>>,
                    nameSave: Option<string>, folderSave: Option<string>, today: string,
                    parse: string -> Option<int>, format: int -> string): Py<Merged<C>>
  {
    MergeFirstAt(1, pathOld, oldRows, newRows, nameSave, folderSave, today, parse, format)
  }

  /** The merge as its folder name describes it: the "from" date is the date of
      the merged table's first row. */
  function MergeIntended<C>(pathOld: string, oldRows: Option<seq<Row<C>>>, newRows: Option<seq<Row<C>>>,
                            nameSave: Option<string>, folderSave: Option<string>, today: string,
                            parse: string -> Option<int>, format: int -> string): Py<Merged<C>>
  {
    MergeFirstAt(0, pathOld, oldRows, newRows, nameSave, folderSave, today, parse, format)
  }

  /** The merge with the "from" date read at position `firstAt` of the merged
      table (`iloc[firstAt]`, IndexError when the table is not that long). */
  function MergeFirstAt<C>(firstAt: nat, pathOld: string, oldRows: Option<seq<Row<C>>>, newRows: Option<seq<Row<C>>>,
                           nameSave: Option<string>, folderSave: Option<string>, today: string,
                           parse: string -> Option<int>, format: int -> string): Py<Merged<C>>
  {
    if oldRows.None? || newRows.None? then PyNone
    else if oldRows.value == [] || newRows.value == [] then Raise(ValueError)
    else
      var o := ParseAll(oldRows.value, parse);
      var n := ParseAll(newRows.value, parse);
      if o.None? || n.None? then Raise(ValueError)
      else MergeParsed(firstAt, pathOld, o.value, n.value, nameSave, folderSave, today, format)
  }

  /** The merge once both tables parsed: the merged rows with their dates
      formatted, saved under the folder and name derived from the dates at
      `firstAt` and at the end. */
  function MergeParsed<C>(firstAt: nat, pathOld: string, o: seq<Dated<C>>, n: seq<Dated<C>>,
                          nameSave: Option<string>, folderSave: Option<string>, today: string,
                          format: int -> string): Py<Merged<C>>
    requires o != []
  {
    var combined := FormatAll(MergeDated(o, n), format);
    if |combined| <= firstAt then Raise(IndexError)
    else
      var first := combined[firstAt].date;
      var last := combined[|combined| - 1].date;
      Val(Merged(combined, Join(SaveFolder(pathOld, first, last, folderSave, today),
                                SaveName(pathOld, last, nameSave, today))))
  }

  /** How the merge ends: `None` when a file could not be read; ValueError for an
      empty table or a date that does not parse; IndexError when the merged table
      has fewer than two rows; otherwise the old rows followed by the later new
      rows, with their dates formatted. */
  lemma MergeOutcome<C>(pathOld: string, oldRows: Option<seq<Row<C>>>, newRows: Option<seq<Row<C>>>,
                        nameSave: Option<string>, folderSave: Option<string>, today: string,
                        parse: string -> Option<int>, format: int -> string)
    ensures var r := Merge(pathOld, oldRows, newRows, nameSave, folderSave, today, parse, format);
            && (r.PyNone? <==> oldRows.None? || newRows.None?)
            && (oldRows.Some? && newRows.Some? && (oldRows.value == [] || newRows.value == []) ==> r == Raise(ValueError))
            && ((oldRows.Some? && newRows.Some? &&
                 (ParseAll(oldRows.value, parse).None? || ParseAll(newRows.value, parse).None?)) ==> r == Raise(ValueError))
            && (r.Val? ==> (oldRows.Some? && newRows.Some? && oldRows.value != [] &&
                            ParseAll(oldRows.value, parse).Some? && ParseAll(newRows.value, parse).Some? &&
                            var o := ParseAll(oldRows.value, parse).value;
                            var n := ParseAll(newRows.value, parse).value;
                            var combined := FormatAll(MergeDated(o, n), format);
                            var last := combined[|combined| - 1].date;
                            |combined| >= 2 &&
                            r == Val(Merged(combined, Join(SaveFolder(pathOld, combined[1].date, last, folderSave, today),
                                                           SaveName(pathOld, last, nameSave, today))))))
            && ((oldRows.Some? && newRows.Some? && oldRows.value != [] && newRows.value != [] &&
                 ParseAll(oldRows.value, parse).Some? && ParseAll(newRows.value, parse).Some?) ==>
                  (var o := ParseAll(oldRows.value, parse).value;
                   var n := ParseAll(newRows.value, parse).value;
                   (r == Raise(IndexError) <==> |MergeDated(o, n)| < 2) && (r.Val? || r == Raise(IndexError))))
  {
    if oldRows.Some? && newRows.Some? && oldRows.value != [] && newRows.value != [] {
      var o := ParseAll(oldRows.value, parse);
      var n := ParseAll(newRows.value, parse);
      if o.Some? && n.Some? {
        assert |o.value| == |oldRows.value|;
        MergeParsedOutcome(1, pathOld, o.value, n.value, nameSave, folderSave, today, format);
      }
    }
  }

  /** The parsed merge raises IndexError exactly when the merged table does not
      reach position `firstAt`; otherwise it returns the formatted merge and the
      path built from the dates at `firstAt` and at the end. */
  lemma MergeParsedOutcome<C>(firstAt: nat, pathOld: string, o: seq<Dated<C>>, n: seq<Dated<C>>,
                              nameSave: Option<string>, folderSave: Option<string>, today: string,
                              format: int -> string)
    requires o != []
    ensures var r := MergeParsed(firstAt, pathOld, o, n, nameSave, folderSave, today, format);
            var combined := FormatAll(MergeDated(o, n), format);
            && (r == Raise(IndexError) <==> |combined| <= firstAt)
            && (r.Val? || r == Raise(IndexError))
            && (firstAt < |combined| ==>
                  var last := combined[|combined| - 1].date;
                  r == Val(Merged(combined, Join(SaveFolder(pathOld, combined[firstAt].date, last, folderSave, today),
                                                 SaveName(pathOld, last, nameSave, today)))))
  {
  }

  /** With the first date read at position 0, every readable, non-empty and
      parseable pair of tables merges: the rows are the merge, and the folder's
      "from" date is the old table's first date, formatted. */
  lemma MergeIntendedOutcome<C>(pathOld: string, oldRows: seq<Row<C>>, newRows: seq<Row<C>>,
                                nameSave: Option<string>, folderSave: Option<string>, today: string,
                                parse: string -> Option<int>, format: int -> string)
    requires oldRows != [] && newRows != []
    requires forall i :: 0 <= i < |oldRows| ==> parse(oldRows[i].date).Some?
    requires forall i :: 0 <= i < |newRows| ==> parse(newRows[i].date).Some?
    ensures var o := ParseAll(oldRows, parse).value;
            var n := ParseAll(newRows, parse).value;
            var combined := FormatAll(MergeDated(o, n), format);
            var last := combined[|combined| - 1].date;
            && combined[0].date == format(parse(oldRows[0].date).value)
            && MergeIntended(pathOld, Some(oldRows), Some(newRows), nameSave, folderSave, today, parse, format)
                 == Val(Merged(combined, Join(SaveFolder(pathOld, combined[0].date, last, folderSave, today),
                                              SaveName(pathOld, last, nameSave, today))))
  {
    var o := ParseAll(oldRows, parse).value;
    var n := ParseAll(newRows, parse).value;
    assert |o| == |oldRows|;
    assert MergeIntended(pathOld, Some(oldRows), Some(newRows), nameSave, folderSave, today, parse, format)
             == MergeParsed(0, pathOld, o, n, nameSave, folderSave, today, format);
    MergeParsedOutcome(0, pathOld, o, n, nameSave, folderSave, today, format);
    var merged := MergeDated(o, n);
    assert merged[0] == merged[..|o|][0] == o[0];
  }

  /** A one-row old table with nothing later in the new table raises IndexError,
      although it is a valid merge. */
  lemma MergeOneRowRaises<C>(pathOld: string, row: Row<C>, newRows: seq<Row<C>>, nameSave: Option<string>,
                             folderSave: Option<string>, today: string, parse: string -> Option<int>,
                             format: int -> string)
    requires newRows != [] && parse(row.date).Some?
    requires forall i :: 0 <= i < |newRows| ==> parse(newRows[i].date).Some? && parse(newRows[i].date).value <= parse(row.date).value
    ensures Merge(pathOld, Some([row]), Some(newRows), nameSave, folderSave, today, parse, format) == Raise(IndexError)
  {
    var o := ParseAll([row], parse).value;
    var n := ParseAll(newRows, parse).value;
    MergeDatedNothingLater(o, n);
  }

  /** The default name of the merged file keeps the part of the old file's name
      before "-to" and ends with ".csv". */
  lemma SaveNameDefault(pathOld: string, last: string, today: string)
    ensures var name := SaveName(pathOld, last, None, today);
            var base := BaseName(pathOld);
            && |base| + 4 <= |name|
            && name[..|base|] == base
            && name[|name| - 4..] == ".csv"
  {
    var base := BaseName(pathOld);
    var middle := "-to" + RemoveChar(last, '-') + "-save" + today;
    assert SaveName(pathOld, last, None, today) == base + middle + ".csv";
  }

  /** The default folder of the merged file is a sub-folder of the working
      directory named after the menu part of the old file's name. */
  lemma SaveFolderDefault(pathOld: string, first: string, last: string, today: string)
    ensures SaveFolder(pathOld, first, last, None, today)
              == "./" + FolderName(MenuName(BaseName(pathOld)), first, last, today)
    ensures var name := FolderName(MenuName(BaseName(pathOld)), first, last, today);
            var head := "dataset-timeseries-" + MenuName(BaseName(pathOld)) + "-from";
            |head| <= |name| && name[..|head|] == head
  {
    var name := FolderName(MenuName(BaseName(pathOld)), first, last, today);
    assert name[0] == 'd';
    JoinSpec(".", name);
    assert NormalizePrefix(".") == "./";
  }

  /** Up to its first "-to", `<menu>-<code>-to<rest>` is `<menu>-<code>` when the
      menu and the code have no '-' and the code does not start with 't'. */
  lemma BaseOfConventionalName(menu: string, code: string, rest: string)
    requires '-' !in menu && '-' !in code
    requires code != "" && code[0] != 't'
    ensures BeforeFirst(menu + "-" + code + "-to" + rest, "-to") == menu + "-" + code
  {
    var base := menu + "-" + code;
    var file := base + "-to" + rest;
    forall j | 0 <= j < |base| ensures !OccursAt(file, "-to", j) {
      if j < |menu| {
        assert file[j] == menu[j];
      } else if j == |menu| {
        assert file[j + 1] == code[0];
      } else {
        assert file[j] == code[j - |menu| - 1];
      }
    }
    assert file[|base|..|base| + 3] == "-to";
    FindFirstLeftmost(file, "-to", |base|);
    assert file[..|base|] == base;
  }

  /** The menu part of `<menu>-<code>` is `<menu>` when the menu has no '-'. */
  lemma MenuOfConventionalName(menu: string, code: string)
    requires '-' !in menu
    ensures MenuName(menu + "-" + code) == menu
  {
    var base := menu + "-" + code;
    forall j | 0 <= j < |menu| ensures !OccursAt(base, "-", j) {
      assert base[j] == menu[j];
    }
    assert base[|menu|..|menu| + 1] == "-";
    FindFirstLeftmost(base, "-", |menu|);
    assert base[..|menu|] == menu;
  }

  /** For an old file named `<menu>-<code>-to<rest>` in any directory, with
      dash-free menu and code (the naming the dataset helpers produce), the base
      name is `<menu>-<code>` and the menu part is `<menu>`. */
  lemma ConventionalNames(dir: string, menu: string, code: string, rest: string)
    requires '/' !in menu && '/' !in code && '/' !in rest
    requires '-' !in menu && '-' !in code
    requires code != "" && code[0] != 't'
    ensures BaseName(dir + "/" + menu + "-" + code + "-to" + rest) == menu + "-" + code
    ensures MenuName(menu + "-" + code) == menu
  {
    var file := menu + "-" + code + "-to" + rest;
    var path := dir + "/" + menu + "-" + code + "-to" + rest;
    assert path == dir + "/" + file;
    assert '/' !in file;
    LastSegmentUnique(path, file);
    BaseOfConventionalName(menu, code, rest);
    MenuOfConventionalName(menu, code);
  }
}
