/**
 * The `wp plugin-check` command: resolving the plugin argument, choosing the
 * formatter's default fields, flattening one file's findings into sorted
 * rows, the order in which files are shown, the cached `Checks` instance and
 * the early preparation guard.
 */
module CliCommand {
  import opened Php
  import opened Wrappers
  import opened CheckResults
  import opened Checker

  // ----- `get_plugin_from_args` -----

  const MissingArgumentMessage: string :=
    "Missing positional argument. Please provide the plugin slug as first positional argument."

  function NotInstalledBasenameMessage(slug: string): string {
    "Invalid positional argument. Plugin with basename " + slug + " is not installed."
  }

  function NotInstalledSlugMessage(slug: string): string {
    "Invalid positional argument. Plugin with slug " + slug + " is not installed."
  }

  /** `strpos( $s, $prefix ) === 0`. */
  predicate StartsWith(s: string, prefix: string) {
    |prefix| <= |s| && s[..|prefix|] == prefix
  }

  /** `strpos( $slug, '/' )` is truthy: a slash occurs, and the first one is not at the start. */
  predicate HasInnerSlash(slug: string) {
    IndexOf(slug, '/').Some? && IndexOf(slug, '/').value > 0
  }

  /** The index of the first installed basename inside the directory `slug`, if any. */
  function FirstInDirectory(installed: seq<string>, slug: string): (r: Option<nat>)
    ensures r.None? <==> forall k :: 0 <= k < |installed| ==> !StartsWith(installed[k], slug + "/")
    ensures r.Some? ==> r.value < |installed| && StartsWith(installed[r.value], slug + "/") &&
                        forall k :: 0 <= k < r.value ==> !StartsWith(installed[k], slug + "/")
  {
    if installed == [] then None
    else if StartsWith(installed[0], slug + "/") then Some(0)
    else match FirstInDirectory(installed[1..], slug)
      case None =>
        assert forall k :: 1 <= k < |installed| ==> installed[k] == installed[1..][k - 1];
        None
      case Some(i) =>
        assert forall k :: 1 <= k < |installed| ==> installed[k] == installed[1..][k - 1];
        Some(i + 1)
  }

  /**
   * What `get_plugin_from_args` returns or throws for the positional
   * arguments `args`, given the basenames `get_plugins` lists, in order.
   */
  function PluginFromArgs(args: seq<string>, installed: seq<string>): Result<string> {
    if |args| == 0 || IsEmpty(Str(args[0])) then Err(MissingArgumentMessage)
    else if args[0] in installed then Ok(args[0])
    else if HasInnerSlash(args[0]) then Err(NotInstalledBasenameMessage(args[0]))
    else match FirstInDirectory(installed, args[0])
      case Some(i) => Ok(installed[i])
      case None => Err(NotInstalledSlugMessage(args[0]))
  }

  /**
   * The plugin argument: missing, "" and "0" are refused; an installed
   * basename is taken as it is; a slug with a slash after its first
   * character is refused; any other slug names the first installed plugin
   * in that directory, and is refused when there is none. Whatever is
   * returned is installed.
   */
  lemma PluginFromArgsProperties(args: seq<string>, installed: seq<string>)
    ensures PluginFromArgs(args, installed).Ok? ==> PluginFromArgs(args, installed).value in installed
    ensures |args| == 0 || args[0] == "" || args[0] == "0" ==>
              PluginFromArgs(args, installed) == Err(MissingArgumentMessage)
    ensures |args| > 0 && args[0] != "" && args[0] != "0" && args[0] in installed ==>
              PluginFromArgs(args, installed) == Ok(args[0])
    ensures |args| > 0 && args[0] !in installed && (exists k :: 0 < k < |args[0]| && args[0][k] == '/' && '/' !in args[0][..k]) ==>
              PluginFromArgs(args, installed) == Err(NotInstalledBasenameMessage(args[0]))
    ensures |args| > 0 && args[0] != "" && args[0] != "0" && args[0] !in installed && !HasInnerSlash(args[0]) ==>
              forall b :: PluginFromArgs(args, installed) == Ok(b) <==>
                exists i :: 0 <= i < |installed| && installed[i] == b && StartsWith(b, args[0] + "/") &&
                            forall k :: 0 <= k < i ==> !StartsWith(installed[k], args[0] + "/")
  {
    if |args| > 0 && args[0] != "" && args[0] != "0" && args[0] !in installed && !HasInnerSlash(args[0]) {
      var slug := args[0];
      var found := FirstInDirectory(installed, slug);
      forall b ensures PluginFromArgs(args, installed) == Ok(b) <==>
                exists i :: 0 <= i < |installed| && installed[i] == b && StartsWith(b, slug + "/") &&
                            forall k :: 0 <= k < i ==> !StartsWith(installed[k], slug + "/")
      {
        if PluginFromArgs(args, installed) == Ok(b) {
          assert installed[found.value] == b;
        }
        if exists i :: 0 <= i < |installed| && installed[i] == b && StartsWith(b, slug + "/") &&
                       forall k :: 0 <= k < i ==> !StartsWith(installed[k], slug + "/") {
          var i :| 0 <= i < |installed| && installed[i] == b && StartsWith(b, slug + "/") &&
                   forall k :: 0 <= k < i ==> !StartsWith(installed[k], slug + "/");
          assert found.Some?;
          assert !(found.value < i) && !(i < found.value);
        }
      }
    }
    if |args| > 0 && args[0] !in installed && (exists k :: 0 < k < |args[0]| && args[0][k] == '/' && '/' !in args[0][..k]) {
      var k :| 0 < k < |args[0]| && args[0][k] == '/' && '/' !in args[0][..k];
      assert forall i :: 0 <= i < k ==> args[0][i] == args[0][..k][i];
    }
  }

  // ----- `get_formatter_from_assoc_args` and the ignore flags -----

  /** The associative-array keys under which WP-CLI passes `--ignore-errors` and `--ignore-warnings`. */
  const IgnoreErrorsKey: string := "ignore-errors"
  const IgnoreWarningsKey: string := "ignore-warnings"

  /** The keys the command actually reads for those two flags. */
  const IgnoreErrorsKeyAsWritten: string := "ignore_errors"
  const IgnoreWarningsKeyAsWritten: string := "ignore_warnings"

  /** `empty( $assoc_args[ $key ] )`: the key is missing or its value is empty. */
  predicate FlagUnset(assoc: Entries<string, Value>, key: string) {
    !HasKey(assoc, key) || IsEmpty(Get(assoc, key))
  }

  /** The default fields, given the keys the flags are read under. */
  function DefaultFieldsFor(assoc: Entries<string, Value>, errorsKey: string, warningsKey: string): (r: seq<string>)
    ensures "type" in r <==> FlagUnset(assoc, errorsKey) && FlagUnset(assoc, warningsKey)
    ensures r == ["line", "column", "code", "message"] || r == ["line", "column", "type", "code", "message"]
  {
    if FlagUnset(assoc, errorsKey) && FlagUnset(assoc, warningsKey) then ["line", "column", "type", "code", "message"]
    else ["line", "column", "code", "message"]
  }

  /** The default fields as the command chooses them, from the underscored keys. */
  function DefaultFieldsAsWritten(assoc: Entries<string, Value>): seq<string> {
    DefaultFieldsFor(assoc, IgnoreErrorsKeyAsWritten, IgnoreWarningsKeyAsWritten)
  }

  /** The default fields read from the keys WP-CLI fills for the documented flags. */
  function DefaultFields(assoc: Entries<string, Value>): (r: seq<string>)
    ensures "type" in r <==> FlagUnset(assoc, IgnoreErrorsKey) && FlagUnset(assoc, IgnoreWarningsKey)
  {
    DefaultFieldsFor(assoc, IgnoreErrorsKey, IgnoreWarningsKey)
  }

  /** The findings of one severity that are shown: none when the flag under `key` is set. */
  function Shown(assoc: Entries<string, Value>, key: string, findings: Tree): Tree {
    if FlagUnset(assoc, key) then findings else []
  }

  /**
   * With `--ignore-errors` given, WP-CLI passes the key "ignore-errors";
   * the command as written looks for "ignore_errors" instead, so it still
   * shows every error and the type column, while reading the documented key
   * hides them.
   */
  lemma IgnoreFlagsAsWrittenHaveNoEffect(errors: Tree)
    requires errors != []
    ensures var assoc := [(IgnoreErrorsKey, Bool(true))];
            && "type" in DefaultFieldsAsWritten(assoc)
            && Shown(assoc, IgnoreErrorsKeyAsWritten, errors) == errors
            && "type" !in DefaultFields(assoc)
            && Shown(assoc, IgnoreErrorsKey, errors) == []
  {
    var assoc := [(IgnoreErrorsKey, Bool(true))];
    assert !HasKey(assoc, IgnoreErrorsKeyAsWritten) && !HasKey(assoc, IgnoreWarningsKeyAsWritten);
    assert HasKey(assoc, IgnoreErrorsKey) && Get(assoc, IgnoreErrorsKey) == Bool(true);
  }

  // ----- `flatten_file_results` -----

  /** The entries merged into every record: its type and the position taken from the bucket keys. */
  function Tag(kind: string, line: int, column: int): Record {
    [("type", Str(kind)), ("line", Int(line)), ("column", Int(column))]
  }

  /** `array_merge( $record, array( 'type' => ..., 'line' => ..., 'column' => ... ) )`. */
  function Row(r: Record, kind: string, line: int, column: int): Record {
    Merge(r, Tag(kind, line, column))
  }

  /** The rows of one column bucket, in order. */
  function ColumnRows(kind: string, line: int, column: int, rs: seq<Record>): (rows: seq<Record>)
    ensures |rows| == |rs|
  {
    seq(|rs|, i requires 0 <= i < |rs| => Row(rs[i], kind, line, column))
  }

  /** The rows of one line, column bucket after column bucket. */
  function LineRows(kind: string, line: int, columns: ColumnBuckets): seq<Record> {
    if columns == [] then []
    else ColumnRows(kind, line, columns[0].0, columns[0].1) + LineRows(kind, line, columns[1..])
  }

  /** The rows of one file's findings of one severity, line after line. */
  function FileRows(kind: string, lines: LineBuckets): seq<Record> {
    if lines == [] then []
    else LineRows(kind, lines[0].0, lines[0].1) + FileRows(kind, lines[1..])
  }

  /** The rows the two triple loops build, errors first. */
  function FlatRows(fileErrors: LineBuckets, fileWarnings: LineBuckets): seq<Record> {
    FileRows("ERROR", fileErrors) + FileRows("WARNING", fileWarnings)
  }

  lemma {:induction false} LineRowsAppend(kind: string, line: int, a: ColumnBuckets, b: ColumnBuckets)
    ensures LineRows(kind, line, a + b) == LineRows(kind, line, a) + LineRows(kind, line, b)
  {
    if a == [] {
      assert a + b == b;
    } else {
      assert (a + b)[0] == a[0] && (a + b)[1..] == a[1..] + b;
      LineRowsAppend(kind, line, a[1..], b);
    }
  }

  lemma {:induction false} FileRowsAppend(kind: string, a: LineBuckets, b: LineBuckets)
    ensures FileRows(kind, a + b) == FileRows(kind, a) + FileRows(kind, b)
  {
    if a == [] {
      assert a + b == b;
    } else {
      assert (a + b)[0] == a[0] && (a + b)[1..] == a[1..] + b;
      FileRowsAppend(kind, a[1..], b);
    }
  }

  lemma ColumnRowsSnoc(kind: string, line: int, column: int, rs: seq<Record>, k: nat)
    requires k < |rs|
    ensures ColumnRows(kind, line, column, rs[..k + 1]) ==
            ColumnRows(kind, line, column, rs[..k]) + [Row(rs[k], kind, line, column)]
  {
  }

  lemma LineRowsSnoc(kind: string, line: int, columns: ColumnBuckets, j: nat)
    requires j < |columns|
    ensures LineRows(kind, line, columns[..j + 1]) ==
            LineRows(kind, line, columns[..j]) + ColumnRows(kind, line, columns[j].0, columns[j].1)
  {
    SliceSnoc(columns, j);
    LineRowsAppend(kind, line, columns[..j], [columns[j]]);
  }

  lemma FileRowsSnoc(kind: string, lines: LineBuckets, i: nat)
    requires i < |lines|
    ensures FileRows(kind, lines[..i + 1]) == FileRows(kind, lines[..i]) + LineRows(kind, lines[i].0, lines[i].1)
  {
    SliceSnoc(lines, i);
    FileRowsAppend(kind, lines[..i], [lines[i]]);
  }

  /** One row per record: as many rows as the buckets hold records. */
  lemma {:induction false} FileRowsCount(kind: string, lines: LineBuckets)
    ensures |FileRows(kind, lines)| == LineCount(lines)
  {
    if lines != [] {
      LineRowsCount(kind, lines[0].0, lines[0].1);
      FileRowsCount(kind, lines[1..]);
    }
  }

  lemma {:induction false} LineRowsCount(kind: string, line: int, columns: ColumnBuckets)
    ensures |LineRows(kind, line, columns)| == ColumnCount(columns)
  {
    if columns != [] {
      LineRowsCount(kind, line, columns[1..]);
    }
  }

  /**
   * A row keeps every field of its record except that the type, line and
   * column are those of its bucket, set by the merge.
   */
  lemma RowFields(r: Record, kind: string, line: int, column: int, key: string)
    ensures HasKey(Row(r, kind, line, column), "type") && Get(Row(r, kind, line, column), "type") == Str(kind)
    ensures HasKey(Row(r, kind, line, column), "line") && Get(Row(r, kind, line, column), "line") == Int(line)
    ensures HasKey(Row(r, kind, line, column), "column") && Get(Row(r, kind, line, column), "column") == Int(column)
    ensures key != "type" && key != "line" && key != "column" ==>
              (HasKey(Row(r, kind, line, column), key) <==> HasKey(r, key)) &&
              (HasKey(r, key) ==> Get(Row(r, kind, line, column), key) == Get(r, key))
  {
    var tag := Tag(kind, line, column);
    TagFields(kind, line, column);
    GetMerge(r, tag, "type");
    GetMerge(r, tag, "line");
    GetMerge(r, tag, "column");
    GetMerge(r, tag, key);
  }

  lemma TagFields(kind: string, line: int, column: int)
    ensures Keys(Tag(kind, line, column)) == ["type", "line", "column"]
    ensures Distinct(Keys(Tag(kind, line, column)))
    ensures Get(Tag(kind, line, column), "type") == Str(kind)
    ensures Get(Tag(kind, line, column), "line") == Int(line)
    ensures Get(Tag(kind, line, column), "column") == Int(column)
  {
    var tag := Tag(kind, line, column);
    assert Keys(tag) == ["type", "line", "column"];
    assert "type"[0] != "line"[0] && "type"[0] != "column"[0] && "line"[0] != "column"[0];
    GetAt(tag, 0);
    GetAt(tag, 1);
    GetAt(tag, 2);
  }

  /** Every row stems from a record of some bucket, tagged with that bucket's line and column. */
  lemma {:induction false} FileRowsFrom(kind: string, lines: LineBuckets, row: Record)
    requires row in FileRows(kind, lines)
    ensures exists e, c, r :: e in lines && c in e.1 && r in c.1 && row == Row(r, kind, e.0, c.0)
  {
    if row in LineRows(kind, lines[0].0, lines[0].1) {
      LineRowsFrom(kind, lines[0].0, lines[0].1, row);
      assert lines[0] in lines;
    } else {
      FileRowsFrom(kind, lines[1..], row);
      var e, c, r :| e in lines[1..] && c in e.1 && r in c.1 && row == Row(r, kind, e.0, c.0);
      assert e in lines;
    }
  }

  lemma {:induction false} LineRowsFrom(kind: string, line: int, columns: ColumnBuckets, row: Record)
    requires row in LineRows(kind, line, columns)
    ensures exists c, r :: c in columns && r in c.1 && row == Row(r, kind, line, c.0)
  {
    if row in ColumnRows(kind, line, columns[0].0, columns[0].1) {
      var k :| 0 <= k < |columns[0].1| && ColumnRows(kind, line, columns[0].0, columns[0].1)[k] == row;
      assert columns[0] in columns && columns[0].1[k] in columns[0].1;
    } else {
      LineRowsFrom(kind, line, columns[1..], row);
      var c, r :| c in columns[1..] && r in c.1 && row == Row(r, kind, line, c.0);
      assert c in columns;
    }
  }

  /** Every record of every bucket gives a row. */
  lemma {:induction false} FileRowsHas(kind: string, lines: LineBuckets, e: (int, ColumnBuckets), c: (int, seq<Record>), r: Record)
    requires e in lines && c in e.1 && r in c.1
    ensures Row(r, kind, e.0, c.0) in FileRows(kind, lines)
  {
    if lines[0] == e {
      LineRowsHas(kind, e.0, e.1, c, r);
    } else {
      assert e in lines[1..];
      FileRowsHas(kind, lines[1..], e, c, r);
    }
  }

  lemma {:induction false} LineRowsHas(kind: string, line: int, columns: ColumnBuckets, c: (int, seq<Record>), r: Record)
    requires c in columns && r in c.1
    ensures Row(r, kind, line, c.0) in LineRows(kind, line, columns)
  {
    if columns[0] == c {
      var k :| 0 <= k < |c.1| && c.1[k] == r;
      assert ColumnRows(kind, line, c.0, c.1)[k] == Row(r, kind, line, c.0);
    } else {
      assert c in columns[1..];
      LineRowsHas(kind, line, columns[1..], c, r);
    }
  }

  /** The integer a comparison reads from a row field. */
  function IntOf(v: Value): int {
    if v.Int? then v.i else 0
  }

  /** `$row['line']` and `$row['column']`, as the comparator reads them. */
  function LineOf(r: Record): int {
    IntOf(GetOr(r, "line", Null))
  }

  function ColumnOf(r: Record): int {
    IntOf(GetOr(r, "column", Null))
  }

  /** The comparator given to `usort`: by line, then by column. */
  function ComparePositions(a: Record, b: Record): (c: int)
    ensures c == -1 || c == 0 || c == 1
  {
    if LineOf(a) < LineOf(b) then -1
    else if LineOf(a) > LineOf(b) then 1
    else if ColumnOf(a) < ColumnOf(b) then -1
    else if ColumnOf(a) > ColumnOf(b) then 1
    else 0
  }

  /** No row is placed after one that the comparator orders before it. */
  predicate SortedByPosition(rows: seq<Record>) {
    forall i, j :: 0 <= i < j < |rows| ==> ComparePositions(rows[i], rows[j]) <= 0
  }

  /** The comparator orders rows by the line, then the column, of their buckets. */
  lemma CompareRows(r: Record, kind: string, line: int, column: int, r': Record, kind': string, line': int, column': int)
    ensures ComparePositions(Row(r, kind, line, column), Row(r', kind', line', column')) <= 0 <==>
              line < line' || (line == line' && column <= column')
  {
    RowFields(r, kind, line, column, "type");
    RowFields(r', kind', line', column', "type");
  }

  /** `usort` with the position comparator, as an insertion sort in place. */
  method SortByPosition(a: array<Record>)
    modifies a
    ensures SortedByPosition(a[..])
    ensures multiset(a[..]) == multiset(old(a[..]))
  {
    var i := 0;
    while i < a.Length
      invariant 0 <= i <= a.Length
      invariant SortedUpTo(a[..], i)
      invariant multiset(a[..]) == multiset(old(a[..]))
    {
      Insert(a, i);
      i := i + 1;
    }
    assert a[..] == a[..][..a.Length];
  }

  /** The prefix `a[..i]` is sorted. */
  predicate SortedUpTo(s: seq<Record>, i: nat)
    requires i <= |s|
  {
    forall k, l :: 0 <= k < l < i ==> ComparePositions(s[k], s[l]) <= 0
  }

  /**
   * Halfway through inserting `s[..i + 1]`'s last element, now at `j`: the
   * others are in order, and it is not after anything above it.
   */
  predicate Inserting(s: seq<Record>, i: nat, j: nat)
    requires j <= i < |s|
  {
    && (forall k, l :: 0 <= k < l <= i && k != j && l != j ==> ComparePositions(s[k], s[l]) <= 0)
    && (forall l :: j < l <= i ==> ComparePositions(s[j], s[l]) <= 0)
  }

  lemma InsertingSwap(s: seq<Record>, i: nat, j: nat)
    requires 0 < j <= i < |s| && Inserting(s, i, j) && ComparePositions(s[j - 1], s[j]) > 0
    ensures Inserting(s[j - 1 := s[j]][j := s[j - 1]], i, j - 1)
    ensures multiset(s[j - 1 := s[j]][j := s[j - 1]]) == multiset(s)
  {
    var t := s[j - 1 := s[j]][j := s[j - 1]];
    SwapMultiset(s, j - 1, j);
    forall k, l | 0 <= k < l <= i && k != j - 1 && l != j - 1
      ensures ComparePositions(t[k], t[l]) <= 0
    {
      assert t[k] == (if k == j then s[j - 1] else s[k]);
      assert t[l] == (if l == j then s[j - 1] else s[l]);
    }
    forall l | j - 1 < l <= i
      ensures ComparePositions(t[j - 1], t[l]) <= 0
    {
      assert t[l] == (if l == j then s[j - 1] else s[l]);
    }
  }

  /** Swapping two elements keeps the multiset. */
  lemma SwapMultiset<T>(s: seq<T>, x: nat, y: nat)
    requires x < y < |s|
    ensures multiset(s[x := s[y]][y := s[x]]) == multiset(s)
  {
    var t := s[x := s[y]][y := s[x]];
    assert s == s[..x] + [s[x]] + s[x + 1..y] + [s[y]] + s[y + 1..];
    assert t == s[..x] + [s[y]] + s[x + 1..y] + [s[x]] + s[y + 1..];
  }

  lemma InsertingDone(s: seq<Record>, i: nat, j: nat)
    requires j <= i < |s| && Inserting(s, i, j)
    requires j == 0 || ComparePositions(s[j - 1], s[j]) <= 0
    ensures SortedUpTo(s, i + 1)
  {
  }

  /** Moves `a[i]` down into the sorted prefix `a[..i]`, swapping it with each larger neighbour. */
  method Insert(a: array<Record>, i: nat)
    requires i < a.Length && SortedUpTo(a[..], i)
    modifies a
    ensures SortedUpTo(a[..], i + 1)
    ensures multiset(a[..]) == multiset(old(a[..]))
  {
    var j := i;
    while j > 0 && ComparePositions(a[j - 1], a[j]) > 0
      invariant 0 <= j <= i
      invariant Inserting(a[..], i, j)
      invariant multiset(a[..]) == multiset(old(a[..]))
    {
      ghost var s := a[..];
      a[j - 1], a[j] := a[j], a[j - 1];
      assert a[..] == s[j - 1 := s[j]][j := s[j - 1]];
      InsertingSwap(s, i, j);
      j := j - 1;
    }
    InsertingDone(a[..], i, j);
  }

  /** One of the two triple loops of `flatten_file_results`: appends the rows of one severity. */
  method AppendRows(kind: string, lines: LineBuckets, acc: seq<Record>) returns (out: seq<Record>)
    ensures out == acc + FileRows(kind, lines)
  {
    out := acc;
    var i := 0;
    while i < |lines|
      invariant i <= |lines|
      invariant out == acc + FileRows(kind, lines[..i])
    {
      out := AppendLineRows(kind, lines[i].0, lines[i].1, out);
      FileRowsSnoc(kind, lines, i);
      i := i + 1;
    }
    assert lines[..i] == lines;
  }

  /** The middle loop: the column buckets of one line. */
  method AppendLineRows(kind: string, line: int, columns: ColumnBuckets, acc: seq<Record>) returns (out: seq<Record>)
    ensures out == acc + LineRows(kind, line, columns)
  {
    out := acc;
    var j := 0;
    while j < |columns|
      invariant j <= |columns|
      invariant out == acc + LineRows(kind, line, columns[..j])
    {
      out := AppendColumnRows(kind, line, columns[j].0, columns[j].1, out);
      LineRowsSnoc(kind, line, columns, j);
      j := j + 1;
    }
    assert columns[..j] == columns;
  }

  /** The innermost loop: `$file_results[] = array_merge( ... )` for each record of one bucket. */
  method AppendColumnRows(kind: string, line: int, column: int, records: seq<Record>, acc: seq<Record>)
    returns (out: seq<Record>)
    ensures out == acc + ColumnRows(kind, line, column, records)
  {
    out := acc;
    var k := 0;
    while k < |records|
      invariant k <= |records|
      invariant out == acc + ColumnRows(kind, line, column, records[..k])
    {
      ColumnRowsSnoc(kind, line, column, records, k);
      out := out + [Row(records[k], kind, line, column)];
      k := k + 1;
    }
    assert records[..k] == records;
  }

  /**
   * `flatten_file_results`: the rows of the errors, then those of the
   * warnings, sorted by position.
   */
  method FlattenFileResults(fileErrors: LineBuckets, fileWarnings: LineBuckets) returns (rows: seq<Record>)
    ensures SortedByPosition(rows)
    ensures multiset(rows) == multiset(FlatRows(fileErrors, fileWarnings))
  {
    var collected := AppendRows("ERROR", fileErrors, []);
    collected := AppendRows("WARNING", fileWarnings, collected);
    var a := new Record[|collected|](i requires 0 <= i < |collected| => collected[i]);
    assert a[..] == collected;
    SortByPosition(a);
    rows := a[..];
  }

  /**
   * Rows that are a permutation of the flattened buckets: one per record,
   * each an error record tagged "ERROR" or a warning record tagged
   * "WARNING" with its bucket's line and column, and every record present.
   */
  lemma FlattenedRows(fileErrors: LineBuckets, fileWarnings: LineBuckets, rows: seq<Record>)
    requires multiset(rows) == multiset(FlatRows(fileErrors, fileWarnings))
    ensures |rows| == LineCount(fileErrors) + LineCount(fileWarnings)
    ensures forall row :: row in rows ==>
              (exists e, c, r :: e in fileErrors && c in e.1 && r in c.1 && row == Row(r, "ERROR", e.0, c.0)) ||
              (exists e, c, r :: e in fileWarnings && c in e.1 && r in c.1 && row == Row(r, "WARNING", e.0, c.0))
    ensures forall e, c, r :: e in fileErrors && c in e.1 && r in c.1 ==> Row(r, "ERROR", e.0, c.0) in rows
    ensures forall e, c, r :: e in fileWarnings && c in e.1 && r in c.1 ==> Row(r, "WARNING", e.0, c.0) in rows
  {
    var flat := FlatRows(fileErrors, fileWarnings);
    assert |rows| == |multiset(rows)| == |multiset(flat)| == |flat|;
    FileRowsCount("ERROR", fileErrors);
    FileRowsCount("WARNING", fileWarnings);
    forall row | row in rows
      ensures (exists e, c, r :: e in fileErrors && c in e.1 && r in c.1 && row == Row(r, "ERROR", e.0, c.0)) ||
              (exists e, c, r :: e in fileWarnings && c in e.1 && r in c.1 && row == Row(r, "WARNING", e.0, c.0))
    {
      assert row in multiset(flat);
      if row in FileRows("ERROR", fileErrors) {
        FileRowsFrom("ERROR", fileErrors, row);
      } else {
        FileRowsFrom("WARNING", fileWarnings, row);
      }
    }
    forall e, c, r | e in fileErrors && c in e.1 && r in c.1
      ensures Row(r, "ERROR", e.0, c.0) in rows
    {
      FileRowsHas("ERROR", fileErrors, e, c, r);
      assert Row(r, "ERROR", e.0, c.0) in multiset(flat);
    }
    forall e, c, r | e in fileWarnings && c in e.1 && r in c.1
      ensures Row(r, "WARNING", e.0, c.0) in rows
    {
      FileRowsHas("WARNING", fileWarnings, e, c, r);
      assert Row(r, "WARNING", e.0, c.0) in multiset(flat);
    }
  }

  // ----- the file order of `check_plugin` -----

  /** One file handed to `flatten_file_results`: its errors and its warnings. */
  datatype FileReport = FileReport(file: string, errors: LineBuckets, warnings: LineBuckets)

  /** What `display_file_results` shows for one file: its name and its rows. */
  datatype Display = Display(file: string, rows: seq<Record>)

  /** The entries of `t` whose file is not in `files`, in order. */
  function WithoutFiles(t: Tree, files: seq<string>): (r: Tree)
    ensures forall e :: e in r <==> e in t && e.0 !in files
  {
    if t == [] then []
    else (if t[0].0 in files then [] else [t[0]]) + WithoutFiles(t[1..], files)
  }

  /** The files with errors, each with the warnings of the same file. */
  function ErrorReports(errors: Tree, warnings: Tree): (r: seq<FileReport>)
    ensures |r| == |errors|
  {
    seq(|errors|, i requires 0 <= i < |errors| => FileReport(errors[i].0, errors[i].1, GetOr(warnings, errors[i].0, [])))
  }

  /** The files with only warnings. */
  function WarningReports(rest: Tree): (r: seq<FileReport>)
    ensures |r| == |rest|
  {
    seq(|rest|, i requires 0 <= i < |rest| => FileReport(rest[i].0, [], rest[i].1))
  }

  /** The files in the order `check_plugin` shows them: those with errors, then those with warnings only. */
  function Reports(errors: Tree, warnings: Tree): seq<FileReport> {
    ErrorReports(errors, warnings) + WarningReports(WithoutFiles(warnings, Keys(errors)))
  }

  function Files(reports: seq<FileReport>): (fs: seq<string>)
    ensures |fs| == |reports| && forall i :: 0 <= i < |reports| ==> fs[i] == reports[i].file
  {
    seq(|reports|, i requires 0 <= i < |reports| => reports[i].file)
  }

  /** Each displayed file is the report at the same place, its rows sorted and exactly that report's rows. */
  predicate DisplaysReports(shown: seq<Display>, reports: seq<FileReport>) {
    |shown| == |reports| && forall i :: 0 <= i < |shown| ==> DisplaysAt(shown[i], reports[i])
  }

  /** One displayed file: the report's file, with its rows sorted and exactly that report's rows. */
  predicate DisplaysAt(d: Display, r: FileReport) {
    && d.file == r.file
    && SortedByPosition(d.rows)
    && multiset(d.rows) == multiset(FlatRows(r.errors, r.warnings))
  }

  lemma DisplaysSnoc(shown: seq<Display>, reports: seq<FileReport>, d: Display, r: FileReport)
    requires DisplaysReports(shown, reports)
    requires d.file == r.file && SortedByPosition(d.rows) && multiset(d.rows) == multiset(FlatRows(r.errors, r.warnings))
    ensures DisplaysReports(shown + [d], reports + [r])
  {
  }

  /** Unsetting one more file of the remaining warnings drops that file too. */
  lemma {:induction false} RemoveWithout(t: Tree, files: seq<string>, f: string)
    ensures Remove(WithoutFiles(t, files), f) == WithoutFiles(t, files + [f])
  {
    if t != [] {
      var head: Tree := if t[0].0 in files then [] else [t[0]];
      RemoveAppend(head, WithoutFiles(t[1..], files), f);
      RemoveWithout(t[1..], files, f);
      assert Remove(head, f) == if t[0].0 in files + [f] then [] else [t[0]];
    }
  }

  /** The remaining warnings of a file not yet visited are still all of its warnings. */
  lemma {:induction false} GetWithout(t: Tree, files: seq<string>, f: string)
    requires f !in files
    ensures HasKey(WithoutFiles(t, files), f) <==> HasKey(t, f)
    ensures GetOr(WithoutFiles(t, files), f, []) == GetOr(t, f, [])
  {
    if t != [] {
      var w := WithoutFiles(t, files);
      var w' := WithoutFiles(t[1..], files);
      GetWithout(t[1..], files, f);
      KeysCons(t);
      if t[0].0 in files {
        assert w == w';
      } else {
        assert w == [t[0]] + w';
        assert w[0] == t[0] && w[1..] == w';
        KeysCons(w);
      }
    }
  }

  lemma KeysCons<K, V>(a: Entries<K, V>)
    requires a != []
    ensures Keys(a) == [a[0].0] + Keys(a[1..])
  {
  }

  lemma RemoveAbsent<K, V>(a: Entries<K, V>, k: K)
    requires !HasKey(a, k)
    ensures Remove(a, k) == a
  {
    KeysRemove(a, k);
    RemoveEntries(a, k);
    if a != [] {
      RemoveAbsent(a[1..], k);
    }
  }

  lemma KeysSnoc<K, V>(a: Entries<K, V>, i: nat)
    requires i < |a|
    ensures Keys(a[..i + 1]) == Keys(a[..i]) + [a[i].0]
  {
    assert |Keys(a[..i + 1])| == |Keys(a[..i]) + [a[i].0]|;
  }

  /**
   * The display part of `check_plugin`: the findings the flags leave, then
   * every file with errors, shown together with its warnings, then every
   * file left with warnings only.
   */
  method ShowResults(assoc: Entries<string, Value>, allErrors: Tree, allWarnings: Tree) returns (shown: seq<Display>)
    requires Distinct(Keys(allErrors))
    ensures DisplaysReports(shown, Reports(Shown(assoc, IgnoreErrorsKey, allErrors), Shown(assoc, IgnoreWarningsKey, allWarnings)))
  {
    var errors: Tree := [];
    if FlagUnset(assoc, IgnoreErrorsKey) {
      errors := allErrors;
    }
    var warnings: Tree := [];
    if FlagUnset(assoc, IgnoreWarningsKey) {
      warnings := allWarnings;
    }
    var first, rest := ShowErrorFiles(errors, warnings);
    shown := ShowWarningFiles(first, ErrorReports(errors, warnings), rest);
  }

  /**
   * The first loop: each file with errors, with its warnings, which are
   * unset from the warnings still to show; returns those that are left.
   */
  method ShowErrorFiles(errors: Tree, warnings: Tree) returns (shown: seq<Display>, rest: Tree)
    requires Distinct(Keys(errors))
    ensures DisplaysReports(shown, ErrorReports(errors, warnings))
    ensures rest == WithoutFiles(warnings, Keys(errors))
  {
    rest := warnings;
    WithoutNothing(warnings);
    shown := [];
    var i := 0;
    while i < |errors|
      invariant i <= |errors|
      invariant rest == WithoutFiles(warnings, Keys(errors[..i]))
      invariant DisplaysReports(shown, ErrorReports(errors[..i], warnings))
    {
      shown, rest := ShowErrorFile(errors, warnings, i, shown, rest);
      i := i + 1;
    }
    assert errors[..i] == errors;
  }

  /** One pass of the first loop: the `i`-th file with errors, and its warnings taken out of `rest`. */
  method ShowErrorFile(errors: Tree, warnings: Tree, i: nat, shown: seq<Display>, rest: Tree)
    returns (shown': seq<Display>, rest': Tree)
    requires Distinct(Keys(errors)) && i < |errors|
    requires rest == WithoutFiles(warnings, Keys(errors[..i]))
    requires DisplaysReports(shown, ErrorReports(errors[..i], warnings))
    ensures rest' == WithoutFiles(warnings, Keys(errors[..i + 1]))
    ensures DisplaysReports(shown', ErrorReports(errors[..i + 1], warnings))
  {
    var file := errors[i].0;
    ghost var visited := Keys(errors[..i]);
    assert file !in visited by {
      assert forall k :: 0 <= k < i ==> visited[k] == Keys(errors)[k];
    }
    GetWithout(warnings, visited, file);
    RemoveWithout(warnings, visited, file);
    var fileWarnings: LineBuckets := [];
    rest' := rest;
    if HasKey(rest, file) {
      fileWarnings := Get(rest, file);
      rest' := Remove(rest, file);
    } else {
      RemoveAbsent(rest, file);
    }
    var rows := FlattenFileResults(errors[i].1, fileWarnings);
    DisplaysSnoc(shown, ErrorReports(errors[..i], warnings), Display(file, rows), FileReport(file, errors[i].1, fileWarnings));
    shown' := shown + [Display(file, rows)];
    ErrorReportsSnoc(errors, i, warnings);
    KeysSnoc(errors, i);
  }

  /** The second loop: each file left with warnings only. */
  method ShowWarningFiles(first: seq<Display>, done: seq<FileReport>, rest: Tree) returns (shown: seq<Display>)
    requires DisplaysReports(first, done)
    ensures DisplaysReports(shown, done + WarningReports(rest))
  {
    shown := first;
    var j := 0;
    while j < |rest|
      invariant j <= |rest|
      invariant DisplaysReports(shown, done + WarningReports(rest[..j]))
    {
      var rows := FlattenFileResults([], rest[j].1);
      var report := FileReport(rest[j].0, [], rest[j].1);
      WarningReportsSnoc(rest, j);
      DisplaysSnoc(shown, done + WarningReports(rest[..j]), Display(rest[j].0, rows), report);
      assert done + WarningReports(rest[..j]) + [report] == done + WarningReports(rest[..j + 1]);
      shown := shown + [Display(rest[j].0, rows)];
      j := j + 1;
    }
    assert rest[..j] == rest;
  }

  lemma {:induction false} WithoutNothing(t: Tree)
    ensures WithoutFiles(t, []) == t
  {
    if t != [] {
      WithoutNothing(t[1..]);
    }
  }

  lemma ErrorReportsSnoc(errors: Tree, i: nat, warnings: Tree)
    requires i < |errors|
    ensures ErrorReports(errors[..i + 1], warnings) ==
            ErrorReports(errors[..i], warnings) + [FileReport(errors[i].0, errors[i].1, GetOr(warnings, errors[i].0, []))]
  {
  }

  lemma WarningReportsSnoc(rest: Tree, j: nat)
    requires j < |rest|
    ensures WarningReports(rest[..j + 1]) == WarningReports(rest[..j]) + [FileReport(rest[j].0, [], rest[j].1)]
  {
  }

  lemma DistinctCons<T>(x: T, s: seq<T>)
    ensures Distinct([x] + s) <==> x !in s && Distinct(s)
  {
    if x !in s && Distinct(s) {
      forall i, j | 0 <= i < j < |[x] + s| ensures ([x] + s)[i] != ([x] + s)[j] {
        if i > 0 {
          assert ([x] + s)[i] == s[i - 1] && ([x] + s)[j] == s[j - 1];
        } else {
          assert ([x] + s)[j] == s[j - 1];
        }
      }
    }
    if Distinct([x] + s) {
      assert forall i :: 0 <= i < |s| ==> s[i] == ([x] + s)[i + 1];
      forall i | 0 <= i < |s| ensures s[i] != x {
        assert ([x] + s)[0] == x && ([x] + s)[i + 1] == s[i];
      }
    }
  }

  /** Dropping files keeps the remaining files distinct. */
  lemma {:induction false} WithoutDistinct(t: Tree, files: seq<string>)
    requires Distinct(Keys(t))
    ensures Distinct(Keys(WithoutFiles(t, files)))
  {
    if t != [] {
      KeysCons(t);
      DistinctCons(t[0].0, Keys(t[1..]));
      WithoutDistinct(t[1..], files);
      var w' := WithoutFiles(t[1..], files);
      if t[0].0 !in files {
        assert WithoutFiles(t, files) == [t[0]] + w';
        KeysCons([t[0]] + w');
        assert ([t[0]] + w')[1..] == w';
        forall k | 0 <= k < |w'| ensures Keys(w')[k] != t[0].0 {
          assert w'[k] in t[1..];
          var m :| 0 <= m < |t[1..]| && t[1..][m] == w'[k];
          assert Keys(t[1..])[m] == w'[k].0;
        }
        DistinctCons(t[0].0, Keys(w'));
      }
    }
  }

  /** In an array with distinct keys, an entry's key leads to its value. */
  lemma GetEntry<K, V>(a: Entries<K, V>, e: (K, V))
    requires Distinct(Keys(a)) && e in a
    ensures HasKey(a, e.0) && Get(a, e.0) == e.1
  {
    var i :| 0 <= i < |a| && a[i] == e;
    GetAt(a, i);
  }

  /** The files with errors come first, in their order and with that file's warnings. */
  lemma ReportsErrorFiles(errors: Tree, warnings: Tree, i: nat)
    requires i < |errors|
    ensures i < |Reports(errors, warnings)|
    ensures Reports(errors, warnings)[i] == FileReport(errors[i].0, errors[i].1, GetOr(warnings, errors[i].0, []))
  {
  }

  /** The remaining files have warnings only, all of that file's warnings, and no errors. */
  lemma ReportsWarningFiles(errors: Tree, warnings: Tree, i: nat)
    requires Distinct(Keys(warnings))
    requires |errors| <= i < |Reports(errors, warnings)|
    ensures var r := Reports(errors, warnings)[i];
            r.errors == [] && !HasKey(errors, r.file) && HasKey(warnings, r.file) && r.warnings == Get(warnings, r.file)
  {
    var rest := WithoutFiles(warnings, Keys(errors));
    var reports := Reports(errors, warnings);
    assert reports == ErrorReports(errors, warnings) + WarningReports(rest);
    var e := rest[i - |errors|];
    assert reports[i] == WarningReports(rest)[i - |errors|] == FileReport(e.0, [], e.1);
    assert e in rest;
    assert e.0 !in Keys(errors);
    GetEntry(warnings, e);
  }

  /** The shown files: those with errors, then the others with warnings. */
  lemma FilesOfReports(errors: Tree, warnings: Tree)
    ensures Files(Reports(errors, warnings)) == Keys(errors) + Keys(WithoutFiles(warnings, Keys(errors)))
  {
    var rest := WithoutFiles(warnings, Keys(errors));
    var reports := Reports(errors, warnings);
    var files := Files(reports);
    assert reports == ErrorReports(errors, warnings) + WarningReports(rest);
    forall i | 0 <= i < |files| ensures files[i] == (Keys(errors) + Keys(rest))[i] {
      if i < |errors| {
        assert reports[i] == ErrorReports(errors, warnings)[i];
      } else {
        assert reports[i] == WarningReports(rest)[i - |errors|];
      }
    }
  }

  /** A file remains after dropping some exactly when it was there and is not among them. */
  lemma KeysWithout(t: Tree, files: seq<string>, f: string)
    ensures f in Keys(WithoutFiles(t, files)) <==> HasKey(t, f) && f !in files
  {
    var rest := WithoutFiles(t, files);
    if HasKey(t, f) && f !in files {
      var k :| 0 <= k < |t| && Keys(t)[k] == f;
      assert t[k] in rest;
      var m :| 0 <= m < |rest| && rest[m] == t[k];
      assert Keys(rest)[m] == f;
    }
    if f in Keys(rest) {
      var m :| 0 <= m < |rest| && Keys(rest)[m] == f;
      assert rest[m] in t;
      var k :| 0 <= k < |t| && t[k] == rest[m];
      assert Keys(t)[k] == f;
    }
  }

  /** A file is shown exactly when it has errors or warnings. */
  lemma ReportsFiles(errors: Tree, warnings: Tree, f: string)
    ensures f in Files(Reports(errors, warnings)) <==> HasKey(errors, f) || HasKey(warnings, f)
  {
    FilesOfReports(errors, warnings);
    KeysWithout(warnings, Keys(errors), f);
  }

  lemma DistinctAppend<T>(a: seq<T>, b: seq<T>)
    requires Distinct(a) && Distinct(b)
    requires forall j :: 0 <= j < |b| ==> b[j] !in a
    ensures Distinct(a + b)
  {
    forall i, j | 0 <= i < j < |a + b| ensures (a + b)[i] != (a + b)[j] {
      if j < |a| {
        assert (a + b)[i] == a[i] && (a + b)[j] == a[j];
      } else if i < |a| {
        assert (a + b)[i] == a[i] && (a + b)[j] == b[j - |a|];
      } else {
        assert (a + b)[i] == b[i - |a|] && (a + b)[j] == b[j - |a|];
      }
    }
  }

  /** No file is shown twice. */
  lemma ReportsDistinct(errors: Tree, warnings: Tree)
    requires Distinct(Keys(errors)) && Distinct(Keys(warnings))
    ensures Distinct(Files(Reports(errors, warnings)))
  {
    var rest := WithoutFiles(warnings, Keys(errors));
    FilesOfReports(errors, warnings);
    WithoutDistinct(warnings, Keys(errors));
    forall j | 0 <= j < |Keys(rest)| ensures Keys(rest)[j] !in Keys(errors) {
      KeysWithout(warnings, Keys(errors), Keys(rest)[j]);
    }
    DistinctAppend(Keys(errors), Keys(rest));
  }

  /**
   * `check_plugin` shows each file once: first every file with errors, in
   * their order and with all of that file's warnings; then every other file
   * with warnings, in their order and with no errors.
   */
  lemma ReportsProperties(errors: Tree, warnings: Tree)
    requires Distinct(Keys(errors)) && Distinct(Keys(warnings))
    ensures |Reports(errors, warnings)| >= |errors|
    ensures forall i :: 0 <= i < |errors| ==>
              Reports(errors, warnings)[i] == FileReport(errors[i].0, errors[i].1, GetOr(warnings, errors[i].0, []))
    ensures forall i :: |errors| <= i < |Reports(errors, warnings)| ==>
              var r := Reports(errors, warnings)[i];
              r.errors == [] && !HasKey(errors, r.file) && HasKey(warnings, r.file) && r.warnings == Get(warnings, r.file)
    ensures forall f :: f in Files(Reports(errors, warnings)) <==> HasKey(errors, f) || HasKey(warnings, f)
    ensures Distinct(Files(Reports(errors, warnings)))
  {
    forall i | 0 <= i < |errors|
      ensures Reports(errors, warnings)[i] == FileReport(errors[i].0, errors[i].1, GetOr(warnings, errors[i].0, []))
    {
      ReportsErrorFiles(errors, warnings, i);
    }
    forall i | |errors| <= i < |Reports(errors, warnings)|
      ensures var r := Reports(errors, warnings)[i];
              r.errors == [] && !HasKey(errors, r.file) && HasKey(warnings, r.file) && r.warnings == Get(warnings, r.file)
    {
      ReportsWarningFiles(errors, warnings, i);
    }
    forall f ensures f in Files(Reports(errors, warnings)) <==> HasKey(errors, f) || HasKey(warnings, f) {
      ReportsFiles(errors, warnings, f);
    }
    ReportsDistinct(errors, warnings);
  }

  /**
   * The ignore flags empty the findings of their severity: with errors
   * ignored no file is shown with errors, and with warnings ignored no file
   * is shown with warnings and only the files with errors are shown.
   */
  lemma IgnoredFindings(assoc: Entries<string, Value>, errors: Tree, warnings: Tree)
    ensures !FlagUnset(assoc, IgnoreErrorsKey) ==>
              forall r :: r in Reports(Shown(assoc, IgnoreErrorsKey, errors), Shown(assoc, IgnoreWarningsKey, warnings)) ==>
                r.errors == []
    ensures !FlagUnset(assoc, IgnoreWarningsKey) ==>
              |Reports(Shown(assoc, IgnoreErrorsKey, errors), Shown(assoc, IgnoreWarningsKey, warnings))| ==
                |Shown(assoc, IgnoreErrorsKey, errors)| &&
              forall r :: r in Reports(Shown(assoc, IgnoreErrorsKey, errors), Shown(assoc, IgnoreWarningsKey, warnings)) ==>
                r.warnings == []
  {
    var e := Shown(assoc, IgnoreErrorsKey, errors);
    var w := Shown(assoc, IgnoreWarningsKey, warnings);
    if !FlagUnset(assoc, IgnoreErrorsKey) {
      assert Keys(e) == [];
      assert Reports(e, w) == WarningReports(WithoutFiles(w, []));
    }
    if !FlagUnset(assoc, IgnoreWarningsKey) {
      assert Reports(e, w) == ErrorReports(e, []);
    }
  }

  /**
   * For a result the checks produced, `check_plugin` shows each file at
   * most once, and shows a file exactly when it has findings of a severity
   * that is not ignored.
   */
  lemma ShownFiles(assoc: Entries<string, Value>, st: ResultState, f: string)
    requires Consistent(st)
    ensures var reports := Reports(Shown(assoc, IgnoreErrorsKey, st.errors), Shown(assoc, IgnoreWarningsKey, st.warnings));
            Distinct(Files(reports)) &&
            (f in Files(reports) <==>
               (FlagUnset(assoc, IgnoreErrorsKey) && HasKey(st.errors, f)) ||
               (FlagUnset(assoc, IgnoreWarningsKey) && HasKey(st.warnings, f)))
  {
    var e := Shown(assoc, IgnoreErrorsKey, st.errors);
    var w := Shown(assoc, IgnoreWarningsKey, st.warnings);
    assert Keys<string, LineBuckets>([]) == [];
    ReportsDistinct(e, w);
    ReportsFiles(e, w, f);
  }

  /** The command group the command is registered under unless told otherwise. */
  const DefaultCommandGroup: string := "plugin-check"

  /** The one subcommand that needs the environment prepared early. */
  const CheckPluginCommand: string := "check-plugin"

  /** The message `check_plugin` stops with when running the checks throws. */
  function CriticalMessage(basename: string, error: string): string {
    "Checking plugin " + basename + " failed with critical error: " + error
  }

  /**
   * The value of `--check` as `run_single_check` receives it: the given
   * text, or "1" for a bare `--check`, which WP-CLI passes as `true`.
   */
  function CheckName(v: Value): string
    requires v.Str? || v.Bool?
  {
    if v.Str? then v.s else if v.b then "1" else ""
  }

  /** The values WP-CLI passes for `--check`: a string, or `true` for a bare flag. */
  predicate CheckArgTyped(assoc: Entries<string, Value>) {
    HasKey(assoc, "check") ==> Get(assoc, "check").Str? || Get(assoc, "check").Bool?
  }

  /** The single check asked for, if `--check` is given and not empty. */
  function RequestedCheck(assoc: Entries<string, Value>): (r: Option<string>)
    requires CheckArgTyped(assoc)
    ensures r.None? <==> FlagUnset(assoc, "check")
  {
    if FlagUnset(assoc, "check") then None else Some(CheckName(Get(assoc, "check")))
  }

  /**
   * What `check_plugin` gets from the `Checks` instance: refused unless it
   * was prepared; without `--check`, every check in order up to the first
   * that throws; with it, the first check of that class, or a refusal when
   * there is none.
   */
  function Requested(prepared: bool, name: Option<string>, cs: seq<Check>): (r: Result<ResultState>)
    requires WellTypedChecks(cs)
    ensures r.Ok? ==> Consistent(r.value)
  {
    if !prepared then Err(NotPreparedMessage)
    else match name
      case None =>
        if AllOutcome(cs).Fail? then Err(AllOutcome(cs).error) else AddedAllCounts(Fresh(), AllAdds(cs)); Ok(AddedAll(Fresh(), AllAdds(cs)))
      case Some(n) =>
        match FindCheck(n, cs)
        case None => Err(InvalidCheckMessage(n))
        case Some(i) =>
          if CheckOutcome(cs[i]).Fail? then Err(CheckOutcome(cs[i]).error)
          else AddedAllCounts(Fresh(), CheckAdds(cs[i])); Ok(AddedAll(Fresh(), CheckAdds(cs[i])))
  }

  /** The events the same request leaves in the instance's trace. */
  function RequestedEvents(prepared: bool, name: Option<string>, cs: seq<Check>): seq<Event> {
    if !prepared then []
    else match name
      case None => AllEvents(cs)
      case Some(n) =>
        match FindCheck(n, cs)
        case None => []
        case Some(i) => CheckEvents(cs[i])
  }

  /** The WP-CLI command class `Plugin_Check_Command`. */
  class PluginCheckCommand {
    const commandGroupName: string
    /** The minimal themes root, as the plugin's own context gives it. */
    const themesDir: string
    /** The checks every new `Checks` instance runs. */
    const availableChecks: seq<Check>
    /** The basenames `get_plugins` reports, in its order. */
    const installed: seq<string>

    /** The cached `Checks` instance, once one is made. */
    var checks: Checks?
    /** The instances whose `prepare` is hooked to `plugins_loaded`, in the order they were hooked. */
    var scheduled: seq<Checks>

    /** Every instance this command makes runs the available checks against the minimal themes root. */
    ghost predicate Valid()
      reads this
    {
      && (checks != null ==> checks.checks == availableChecks && checks.themesDir == themesDir)
      && (forall i :: 0 <= i < |scheduled| ==> scheduled[i].checks == availableChecks)
    }

    /**
     * Whether `prepare_for_commands` hooks a preparation: there are at least
     * four command line words, the second and third name this command group
     * and `check-plugin`, and the fourth names an installed plugin.
     */
    predicate ShouldPrepare(argv: Option<seq<string>>) {
      && argv.Some? && |argv.value| >= 4
      && argv.value[1] == commandGroupName
      && argv.value[2] == CheckPluginCommand
      && PluginFromArgs([argv.value[3]], installed).Ok?
    }

    /**
     * The constructor: unless told to skip it, it runs
     * `prepare_for_commands` on the process's command line words, given as
     * `argv` (`None` when `$_SERVER['argv']` is not set).
     */
    constructor (commandGroupName: string, themesDir: string, availableChecks: seq<Check>, installed: seq<string>,
                 skipPrepare: bool, argv: Option<seq<string>>)
      ensures this.commandGroupName == commandGroupName && this.themesDir == themesDir
      ensures this.availableChecks == availableChecks && this.installed == installed
      ensures Valid()
      ensures skipPrepare || !ShouldPrepare(argv) ==> checks == null && scheduled == []
      ensures !skipPrepare && ShouldPrepare(argv) ==>
                checks != null && fresh(checks) && scheduled == [checks] && !checks.prepared &&
                checks.basename == PluginFromArgs([argv.value[3]], installed).value
    {
      this.commandGroupName := commandGroupName;
      this.themesDir := themesDir;
      this.availableChecks := availableChecks;
      this.installed := installed;
      checks := null;
      scheduled := [];
      new;
      if !skipPrepare {
        PrepareForCommands(argv);
      }
    }

    /**
     * `get_plugin_from_args`: the first positional argument is a basename
     * when it is installed as such; otherwise, unless it has a slash after
     * its first character, the first installed basename in that directory.
     */
    method GetPluginFromArgs(args: seq<string>) returns (r: Result<string>)
      ensures r == PluginFromArgs(args, installed)
    {
      if |args| == 0 || IsEmpty(Str(args[0])) {
        return Err(MissingArgumentMessage);
      }
      var slug := args[0];
      if slug in installed {
        return Ok(slug);
      }
      if HasInnerSlash(slug) {
        return Err(NotInstalledBasenameMessage(slug));
      }
      var i := 0;
      while i < |installed|
        invariant 0 <= i <= |installed|
        invariant forall k :: 0 <= k < i ==> !StartsWith(installed[k], slug + "/")
      {
        if StartsWith(installed[i], slug + "/") {
          assert FirstInDirectory(installed, slug) == Some(i);
          return Ok(installed[i]);
        }
        i := i + 1;
      }
      r := Err(NotInstalledSlugMessage(slug));
    }

    /**
     * `get_checks_instance`: the cached instance when it is for the same
     * plugin; otherwise a new, unprepared one, which replaces the cache.
     */
    method GetChecksInstance(basename: string) returns (c: Checks)
      requires Valid()
      modifies this
      ensures Valid() && checks == c && scheduled == old(scheduled)
      ensures c.basename == basename
      ensures old(checks) != null && old(checks).basename == basename ==> c == old(checks)
      ensures !(old(checks) != null && old(checks).basename == basename) ==>
                fresh(c) && !c.prepared && c.trace == []
    {
      if checks != null && checks.PluginBasename() == basename {
        return checks;
      }
      c := new Checks(basename, themesDir, availableChecks);
      checks := c;
    }

    /**
     * `prepare_for_commands`: bails out unless the command line invokes
     * `check-plugin` of this group on an installed plugin; then it hooks
     * that plugin's instance's `prepare` to `plugins_loaded`.
     */
    method PrepareForCommands(argv: Option<seq<string>>)
      requires Valid()
      modifies this
      ensures Valid()
      ensures !ShouldPrepare(argv) ==> checks == old(checks) && scheduled == old(scheduled)
      ensures ShouldPrepare(argv) ==>
                var basename := PluginFromArgs([argv.value[3]], installed).value;
                checks != null && checks.basename == basename && scheduled == old(scheduled) + [checks] &&
                (old(checks) != null && old(checks).basename == basename ==> checks == old(checks)) &&
                (!(old(checks) != null && old(checks).basename == basename) ==>
                   fresh(checks) && !checks.prepared && checks.trace == [])
    {
      if argv.None? {
        return;
      }
      var words := argv.value;
      if |words| < 4 {
        return;
      }
      if words[1] != commandGroupName {
        return;
      }
      if words[2] != CheckPluginCommand {
        return;
      }
      var basename := GetPluginFromArgs([words[3]]);
      if basename.Err? {
        return;
      }
      var c := GetChecksInstance(basename.value);
      scheduled := scheduled + [c];
    }

    /**
     * The run of `check_plugin`: `run_single_check` with the `--check`
     * value when one is given and not empty, `run_all_checks` otherwise.
     */
    method RunRequested(c: Checks, assoc: Entries<string, Value>) returns (r: Result<CheckResult>)
      requires c.checks == availableChecks && WellTypedChecks(availableChecks) && CheckArgTyped(assoc)
      modifies c
      ensures c.prepared == old(c.prepared)
      ensures c.trace == old(c.trace) + RequestedEvents(old(c.prepared), RequestedCheck(assoc), availableChecks)
      ensures match Requested(old(c.prepared), RequestedCheck(assoc), availableChecks)
              case Err(e) => r == Err(e)
              case Ok(st) => r.Ok? && fresh(r.value) && r.value.Valid() && r.value.State() == st
    {
      var name := RequestedCheck(assoc);
      if name.None? {
        r := c.RunAllChecks();
      } else {
        r := c.RunSingleCheck(name.value);
      }
    }

    /**
     * `check_plugin`: resolve the plugin, get its instance, run the checks
     * asked for, and show every file's findings, files with errors first,
     * leaving out the severities the ignore flags name. Each way the
     * command stops with an error yields that error's message.
     */
    method CheckPlugin(args: seq<string>, assoc: Entries<string, Value>) returns (r: Result<seq<Display>>)
      requires Valid() && WellTypedChecks(availableChecks) && CheckArgTyped(assoc)
      modifies this, checks
      ensures Valid() && scheduled == old(scheduled)
      ensures PluginFromArgs(args, installed).Err? ==>
                r == Err(PluginFromArgs(args, installed).error) && checks == old(checks)
      ensures PluginFromArgs(args, installed).Ok? ==>
                var basename := PluginFromArgs(args, installed).value;
                var reused := old(checks) != null && old(checks).basename == basename;
                var wasPrepared := reused && old(checks.prepared);
                checks != null && checks.basename == basename &&
                (reused ==> checks == old(checks)) && (!reused ==> fresh(checks)) &&
                checks.prepared == wasPrepared &&
                checks.trace == (if reused then old(checks.trace) else []) +
                                RequestedEvents(wasPrepared, RequestedCheck(assoc), availableChecks) &&
                match Requested(wasPrepared, RequestedCheck(assoc), availableChecks)
                case Err(e) => r == Err(CriticalMessage(basename, e))
                case Ok(st) =>
                  r.Ok? &&
                  DisplaysReports(r.value, Reports(Shown(assoc, IgnoreErrorsKey, st.errors),
                                                   Shown(assoc, IgnoreWarningsKey, st.warnings)))
    {
      var basename := GetPluginFromArgs(args);
      if basename.Err? {
        return Err(basename.error);
      }
      var c := GetChecksInstance(basename.value);
      var result := RunRequested(c, assoc);
      if result.Err? {
        return Err(CriticalMessage(basename.value, result.error));
      }
      var errors := result.value.GetErrors();
      var warnings := result.value.GetWarnings();
      var shown := ShowResults(assoc, errors, warnings);
      r := Ok(shown);
    }
  }
}
