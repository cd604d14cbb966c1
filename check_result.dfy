/**
 * The result accumulator of a check run: errors and warnings, each a nested
 * array file -> line -> column -> list of records, and one running count per
 * severity.
 */
module CheckResults {
  import opened Wrappers
  import opened Php

  /** A stored finding: the message arguments without the line and column keys. */
  type Record = Entries<string, Value>
  type ColumnBuckets = Entries<int, seq<Record>>
  type LineBuckets = Entries<int, ColumnBuckets>
  type Tree = Entries<string, LineBuckets>

  function ColumnCount(c: ColumnBuckets): nat {
    Sum(c, (rs: seq<Record>) => |rs|)
  }

  function LineCount(l: LineBuckets): nat {
    Sum(l, ColumnCount)
  }

  /** The number of records in all buckets of a tree. */
  function TreeCount(t: Tree): nat {
    Sum(t, LineCount)
  }

  /** The records stored at one position; [] when a bucket on the way is missing. */
  function Bucket(t: Tree, file: string, line: int, column: int): seq<Record> {
    GetOr(GetOr(GetOr(t, file, []), line, []), column, [])
  }

  /** `$t[$file][$line][$column][] = $r` with the missing buckets created empty first. */
  function Insert(t: Tree, file: string, line: int, column: int, r: Record): Tree {
    var lines := GetOr(t, file, []);
    var columns := GetOr(lines, line, []);
    Put(t, file, Put(lines, line, Put(columns, column, GetOr(columns, column, []) + [r])))
  }

  /** Keys are unique at every level of the tree, as in any PHP array. */
  ghost predicate WellFormed(t: Tree) {
    && Distinct(Keys(t))
    && (forall e :: e in t ==> Distinct(Keys(e.1)))
    && (forall e, e' :: e in t && e' in e.1 ==> Distinct(Keys(e'.1)))
  }

  lemma GetOrIn<K, V>(a: Entries<K, V>, k: K, d: V)
    ensures HasKey(a, k) ==> (k, GetOr(a, k, d)) in a
  {
    if HasKey(a, k) {
      GetIn(a, k);
    }
  }

  lemma {:induction false} GetIn<K, V>(a: Entries<K, V>, k: K)
    requires HasKey(a, k)
    ensures (k, Get(a, k)) in a
  {
    if a[0].0 != k {
      GetIn(a[1..], k);
    }
  }

  /** Appending a record adds exactly one to the number of records in the tree. */
  lemma InsertCount(t: Tree, file: string, line: int, column: int, r: Record)
    ensures TreeCount(Insert(t, file, line, column, r)) == TreeCount(t) + 1
  {
    var lines := GetOr(t, file, []);
    var columns := GetOr(lines, line, []);
    var cell := GetOr(columns, column, []);
    var columns' := Put(columns, column, cell + [r]);
    var lines' := Put(lines, line, columns');
    SumPut(columns, column, cell + [r], (rs: seq<Record>) => |rs|);
    assert ColumnCount(columns') == ColumnCount(columns) + 1;
    SumPut(lines, line, columns', ColumnCount);
    assert LineCount(lines') == LineCount(lines) + 1;
    SumPut(t, file, lines', LineCount);
  }

  /**
   * Appending at one position: that bucket gets the record at its end, every
   * other bucket keeps its records.
   */
  lemma InsertBucket(t: Tree, file: string, line: int, column: int, r: Record,
                     file': string, line': int, column': int)
    ensures Bucket(Insert(t, file, line, column, r), file', line', column') ==
            if file' == file && line' == line && column' == column
            then Bucket(t, file, line, column) + [r]
            else Bucket(t, file', line', column')
  {
    var lines := GetOr(t, file, []);
    var columns := GetOr(lines, line, []);
    var cell := GetOr(columns, column, []);
    var columns' := Put(columns, column, cell + [r]);
    var lines' := Put(lines, line, columns');
    GetPut(t, file, lines', file');
    GetPut(lines, line, columns', line');
    GetPut(columns, column, cell + [r], column');
  }

  /** Appending creates the file, line and column buckets, a new file key at the end. */
  lemma InsertKeys(t: Tree, file: string, line: int, column: int, r: Record)
    ensures Keys(Insert(t, file, line, column, r)) == if HasKey(t, file) then Keys(t) else Keys(t) + [file]
    ensures var t' := Insert(t, file, line, column, r);
      HasKey(t', file) && HasKey(Get(t', file), line) && HasKey(Get(Get(t', file), line), column)
  {
    var lines := GetOr(t, file, []);
    var columns := GetOr(lines, line, []);
    var cell := GetOr(columns, column, []);
    var columns' := Put(columns, column, cell + [r]);
    var lines' := Put(lines, line, columns');
    KeysPut(t, file, lines');
    GetPut(t, file, lines', file);
    GetPut(lines, line, columns', line);
    GetPut(columns, column, cell + [r], column);
  }

  lemma InsertWellFormed(t: Tree, file: string, line: int, column: int, r: Record)
    requires WellFormed(t)
    ensures WellFormed(Insert(t, file, line, column, r))
  {
    var lines := GetOr(t, file, []);
    var columns := GetOr(lines, line, []);
    var cell := GetOr(columns, column, []);
    var columns' := Put(columns, column, cell + [r]);
    var lines' := Put(lines, line, columns');
    var t' := Put(t, file, lines');
    GetOrIn(t, file, []);
    GetOrIn(lines, line, []);
    assert Distinct(Keys(lines));
    assert Distinct(Keys(columns));
    DistinctPut(columns, column, cell + [r]);
    DistinctPut(lines, line, columns');
    DistinctPut(t, file, lines');
    PutEntries(t, file, lines');
    PutEntries(lines, line, columns');
    forall e: (string, LineBuckets), e': (int, ColumnBuckets) | e in t' && e' in e.1 ensures Distinct(Keys(e'.1)) {
      if e != (file, lines') {
        assert e in t;
      } else if e' != (line, columns') {
        assert e' in lines;
      }
    }
  }

  // ---------------------------------------------------------------------
  // The accumulated state
  // ---------------------------------------------------------------------

  datatype ResultState = ResultState(errors: Tree, warnings: Tree, errorCount: nat, warningCount: nat)

  /** The accumulator's invariant: each count is the number of records of its severity. */
  ghost predicate Consistent(st: ResultState) {
    && WellFormed(st.errors) && WellFormed(st.warnings)
    && st.errorCount == TreeCount(st.errors)
    && st.warningCount == TreeCount(st.warnings)
  }

  /** A new result: nothing recorded, both counts zero. */
  function Fresh(): (st: ResultState)
    ensures Consistent(st)
    ensures st.errorCount == 0 && st.warningCount == 0
  {
    ResultState([], [], 0, 0)
  }

  // ---------------------------------------------------------------------
  // Message arguments
  // ---------------------------------------------------------------------

  /** The documented arguments of a message and their defaults. */
  const Defaults: Record := [("code", Str("")), ("file", Str("")), ("line", Int(0)), ("column", Int(0))]

  /** What the documented argument types demand: a string file and integer line and column when given. */
  predicate WellTypedArgs(args: Record) {
    && Distinct(Keys(args))
    && (HasKey(args, "file") ==> Get(args, "file").Str?)
    && (HasKey(args, "line") ==> Get(args, "line").Int?)
    && (HasKey(args, "column") ==> Get(args, "column").Int?)
  }

  /**
   * `$data`: the message, then each documented argument or its default, in
   * the order of the defaults. `MessageDataIsMerge` shows this is what the
   * `array_merge` of the source builds.
   */
  function MessageData(message: string, args: Record): Record {
    [("message", Str(message)),
     ("code", GetOr(args, "code", Str(""))),
     ("file", GetOr(args, "file", Str(""))),
     ("line", GetOr(args, "line", Int(0))),
     ("column", GetOr(args, "column", Int(0)))]
  }

  /** The source's expression for `$data`: the message, merged with the defaults, merged with the documented arguments. */
  function MergedData(message: string, args: Record): Record {
    Merge(Merge([("message", Str(message))], Defaults), IntersectKeys(args, Keys(Defaults)))
  }

  lemma PutNew<K, V>(a: Entries<K, V>, k: K, v: V)
    requires !HasKey(a, k)
    ensures Put(a, k, v) == a + [(k, v)]
  {
    if a != [] {
      assert Keys(a) == [a[0].0] + Keys(a[1..]);
      PutNew(a[1..], k, v);
      assert a == [a[0]] + a[1..];
    }
  }

  /** The keys of the defaults, in order. */
  const DefaultKeys: seq<string> := ["code", "file", "line", "column"]

  /** The keys of `$data`, in order. */
  const DataKeys: seq<string> := ["message", "code", "file", "line", "column"]

  lemma DefaultsKeys()
    ensures Keys(Defaults) == DefaultKeys
  {
  }

  /** The keys of `$data` are distinct, and every default key is one of them. */
  lemma DataKeysDistinct()
    ensures Distinct(DataKeys)
    ensures forall k :: k in DefaultKeys ==> k in DataKeys
  {
    forall i, j | 0 <= i < j < |DataKeys| ensures DataKeys[i] != DataKeys[j] {
      assert DataKeys[i][0] != DataKeys[j][0] || |DataKeys[i]| != |DataKeys[j]|;
    }
  }

  lemma BaseDataKeys(message: string)
    ensures Keys(BaseData(message)) == DataKeys
  {
  }

  /** `$data` before the arguments are merged in: the message, then the defaults. */
  function BaseData(message: string): Record {
    [("message", Str(message)), ("code", Str("")), ("file", Str("")), ("line", Int(0)), ("column", Int(0))]
  }

  lemma MessageBase(message: string)
    ensures Merge([("message", Str(message))], Defaults) == BaseData(message)
  {
    var m0: Record := [("message", Str(message))];
    PutNew(m0, "code", Str(""));
    var m1 := m0 + [("code", Str(""))];
    PutNew(m1, "file", Str(""));
    var m2 := m1 + [("file", Str(""))];
    PutNew(m2, "line", Int(0));
    var m3 := m2 + [("line", Int(0))];
    PutNew(m3, "column", Int(0));
    var d := Defaults;
    assert Merge(m0, d) == Merge(m1, d[1..]);
    assert Merge(m1, d[1..]) == Merge(m2, d[2..]) by { assert d[1..][1..] == d[2..]; }
    assert Merge(m2, d[2..]) == Merge(m3, d[3..]) by { assert d[2..][1..] == d[3..]; }
    assert Merge(m3, d[3..]) == Merge(m3 + [("column", Int(0))], []) by { assert d[3..][1..] == []; }
  }

  /** Every documented argument is already a key of the base, so merging them in overrides in place. */
  lemma MergeGivenOverrides(message: string, args: Record)
    requires Distinct(Keys(args))
    ensures Merge(BaseData(message), IntersectKeys(args, DefaultKeys)) ==
            Override(BaseData(message), IntersectKeys(args, DefaultKeys))
  {
    BaseDataKeys(message);
    DataKeysDistinct();
    MergeIntersectOverride(BaseData(message), args, DefaultKeys);
  }

  lemma OverrideGivenAt(message: string, args: Record, i: nat)
    requires i < 5
    ensures Override(BaseData(message), IntersectKeys(args, DefaultKeys))[i] == MessageData(message, args)[i]
  {
    OverrideIntersectAt(BaseData(message), args, DefaultKeys, i);
    if i == 0 {
      assert "message" !in DefaultKeys;
    }
  }

  /** Overriding the base by the documented arguments gives the explicit `$data`. */
  lemma OverrideGivenIsData(message: string, args: Record)
    ensures Override(BaseData(message), IntersectKeys(args, DefaultKeys)) == MessageData(message, args)
  {
    forall i | 0 <= i < 5
      ensures Override(BaseData(message), IntersectKeys(args, DefaultKeys))[i] == MessageData(message, args)[i]
    {
      OverrideGivenAt(message, args, i);
    }
  }

  /** The explicit `$data` is the array the source's `array_merge` builds from the arguments. */
  lemma MessageDataIsMerge(message: string, args: Record)
    requires Distinct(Keys(args))
    ensures MessageData(message, args) == MergedData(message, args)
  {
    MessageBase(message);
    DefaultsKeys();
    MergeGivenOverrides(message, args);
    OverrideGivenIsData(message, args);
  }

  /** The position of a message: the file, line and column of `$data`. */
  function Position(message: string, args: Record): (pos: (string, int, int))
    requires WellTypedArgs(args)
    ensures pos.0 == GetOr(args, "file", Str("")).s
    ensures pos.1 == GetOr(args, "line", Int(0)).i
    ensures pos.2 == GetOr(args, "column", Int(0)).i
  {
    MessageDataPosition(message, args);
    var data := MessageData(message, args);
    (Get(data, "file").s, Get(data, "line").i, Get(data, "column").i)
  }

  /** The position entries of `$data` hold the given arguments or their defaults. */
  lemma MessageDataPosition(message: string, args: Record)
    requires WellTypedArgs(args)
    ensures HasKey(MessageData(message, args), "file") && HasKey(MessageData(message, args), "line")
    ensures HasKey(MessageData(message, args), "column")
    ensures Get(MessageData(message, args), "file") == GetOr(args, "file", Str("")) && GetOr(args, "file", Str("")).Str?
    ensures Get(MessageData(message, args), "line") == GetOr(args, "line", Int(0)) && GetOr(args, "line", Int(0)).Int?
    ensures Get(MessageData(message, args), "column") == GetOr(args, "column", Int(0)) && GetOr(args, "column", Int(0)).Int?
  {
    MessageDataAt(message, args, 2);
    MessageDataAt(message, args, 3);
    MessageDataAt(message, args, 4);
  }

  lemma MessageDataAt(message: string, args: Record, i: nat)
    requires i < 5
    ensures HasKey(MessageData(message, args), MessageData(message, args)[i].0)
    ensures Get(MessageData(message, args), MessageData(message, args)[i].0) == MessageData(message, args)[i].1
  {
    var data := MessageData(message, args);
    assert Keys(data) == DataKeys;
    DataKeysDistinct();
    GetAt(data, i);
  }

  /** The record stored for a message: `$data` without the line and column keys. */
  function StoredRecord(message: string, args: Record): Record {
    Remove(Remove(MessageData(message, args), "line"), "column")
  }

  lemma RemoveOne<K, V>(e: (K, V), k: K)
    ensures Remove([e], k) == if e.0 == k then [] else [e]
  {
    assert [e][1..] == [];
  }

  /** `$a` without the two keys, for an array whose two last entries hold them. */
  lemma RemoveLastTwo<V>(front: Entries<string, V>, l: (string, V), c: (string, V))
    requires !HasKey(front, "line") && !HasKey(front, "column")
    requires l.0 == "line" && c.0 == "column"
    ensures Remove(Remove(front + [l] + [c], "line"), "column") == front
  {
    KeysRemove(front, "line");
    KeysRemove(front, "column");
    RemoveAbsent(front, "line");
    RemoveAbsent(front, "column");
    RemoveAppend(front + [l], [c], "line");
    RemoveAppend(front, [l], "line");
    RemoveOne(l, "line");
    RemoveOne(c, "line");
    assert front + [] + [c] == front + [c];
    RemoveAppend(front, [c], "column");
    RemoveOne(c, "column");
  }

  lemma {:induction false} RemoveAbsent<K, V>(a: Entries<K, V>, k: K)
    requires !HasKey(a, k)
    ensures Remove(a, k) == a
  {
    if a != [] {
      assert Keys(a) == [a[0].0] + Keys(a[1..]);
      RemoveAbsent(a[1..], k);
      assert a == [a[0]] + a[1..];
    }
  }

  /**
   * The stored record is the message text, the code and the file, each
   * argument or its default, in that order.
   */
  lemma StoredRecordFields(message: string, args: Record)
    ensures StoredRecord(message, args) ==
            [("message", Str(message)), ("code", GetOr(args, "code", Str(""))), ("file", GetOr(args, "file", Str("")))]
  {
    var front: Record := [("message", Str(message)), ("code", GetOr(args, "code", Str(""))), ("file", GetOr(args, "file", Str("")))];
    assert Keys(front) == ["message", "code", "file"];
    assert MessageData(message, args) == front + [("line", GetOr(args, "line", Int(0)))] + [("column", GetOr(args, "column", Int(0)))];
    RemoveLastTwo(front, ("line", GetOr(args, "line", Int(0))), ("column", GetOr(args, "column", Int(0))));
  }

  /** The position `add_message` reads, straight from `$args` as the code does. */
  function PositionAsWritten(args: Record): (string, int, int)
    requires WellTypedArgs(args)
    requires HasKey(args, "file") && HasKey(args, "line") && HasKey(args, "column")
  {
    (Get(args, "file").s, Get(args, "line").i, Get(args, "column").i)
  }

  /** The record `add_message` stores as the code is written: `$args` without line and column. */
  function StoredRecordAsWritten(args: Record): Record {
    Remove(Remove(args, "line"), "column")
  }

  /**
   * As written, the message text never reaches the stored record: for the
   * arguments the static-analysis check passes, only code and file remain,
   * while the intended record starts with the message.
   */
  lemma StoredRecordAsWrittenDropsMessage(message: string, code: string, file: string, line: int, column: int)
    ensures var args: Record := [("code", Str(code)), ("file", Str(file)), ("line", Int(line)), ("column", Int(column))];
      && StoredRecordAsWritten(args) == [("code", Str(code)), ("file", Str(file))]
      && StoredRecord(message, args) == [("message", Str(message)), ("code", Str(code)), ("file", Str(file))]
  {
    var front: Record := [("code", Str(code)), ("file", Str(file))];
    var args: Record := front + [("line", Int(line))] + [("column", Int(column))];
    assert Keys(front) == ["code", "file"];
    RemoveLastTwo(front, ("line", Int(line)), ("column", Int(column)));
    assert args == [("code", Str(code)), ("file", Str(file)), ("line", Int(line)), ("column", Int(column))];
    assert Keys(args) == ["code", "file", "line", "column"];
    assert Distinct(Keys(args));
    GetAt(args, 0);
    GetAt(args, 1);
    StoredRecordFields(message, args);
  }

  /** The state after `add_message`: one record appended in the bucket of its severity. */
  function Added(st: ResultState, isError: bool, message: string, args: Record): ResultState
    requires WellTypedArgs(args)
  {
    var pos := Position(message, args);
    var r := StoredRecord(message, args);
    if isError then st.(errors := Insert(st.errors, pos.0, pos.1, pos.2, r), errorCount := st.errorCount + 1)
    else st.(warnings := Insert(st.warnings, pos.0, pos.1, pos.2, r), warningCount := st.warningCount + 1)
  }

  /**
   * `add_message` keeps the counts equal to the number of records: the count
   * of its severity grows by one, the other count and the other tree stay.
   */
  lemma AddedConsistent(st: ResultState, isError: bool, message: string, args: Record)
    requires Consistent(st) && WellTypedArgs(args)
    ensures Consistent(Added(st, isError, message, args))
    ensures Added(st, isError, message, args).errorCount == st.errorCount + (if isError then 1 else 0)
    ensures Added(st, isError, message, args).warningCount == st.warningCount + (if isError then 0 else 1)
    ensures isError ==> Added(st, isError, message, args).warnings == st.warnings
    ensures !isError ==> Added(st, isError, message, args).errors == st.errors
  {
    var pos := Position(message, args);
    var r := StoredRecord(message, args);
    if isError {
      InsertCount(st.errors, pos.0, pos.1, pos.2, r);
      InsertWellFormed(st.errors, pos.0, pos.1, pos.2, r);
    } else {
      InsertCount(st.warnings, pos.0, pos.1, pos.2, r);
      InsertWellFormed(st.warnings, pos.0, pos.1, pos.2, r);
    }
  }

  /**
   * `add_message` appends the stored record at the end of the bucket at its
   * position; every other bucket of either severity keeps its records.
   */
  lemma AddedBuckets(st: ResultState, isError: bool, message: string, args: Record,
                     file: string, line: int, column: int)
    requires WellTypedArgs(args)
    ensures var st' := Added(st, isError, message, args);
      var pos := Position(message, args);
      var here := file == pos.0 && line == pos.1 && column == pos.2;
      && Bucket(if isError then st'.errors else st'.warnings, file, line, column) ==
         (if here then Bucket(if isError then st.errors else st.warnings, file, line, column) + [StoredRecord(message, args)]
          else Bucket(if isError then st.errors else st.warnings, file, line, column))
      && Bucket(if isError then st'.warnings else st'.errors, file, line, column) ==
         Bucket(if isError then st.warnings else st.errors, file, line, column)
  {
    var pos := Position(message, args);
    var r := StoredRecord(message, args);
    InsertBucket(if isError then st.errors else st.warnings, pos.0, pos.1, pos.2, r, file, line, column);
  }

  /** One call of `add_message`. */
  datatype MessageCall = MessageCall(isError: bool, message: string, args: Record)

  function ErrorCalls(calls: seq<MessageCall>): nat {
    if calls == [] then 0 else (if calls[0].isError then 1 else 0) + ErrorCalls(calls[1..])
  }

  /** The state after a sequence of `add_message` calls, in order. */
  function AddedAll(st: ResultState, calls: seq<MessageCall>): ResultState
    requires forall i :: 0 <= i < |calls| ==> WellTypedArgs(calls[i].args)
    decreases |calls|
  {
    if calls == [] then st
    else AddedAll(Added(st, calls[0].isError, calls[0].message, calls[0].args), calls[1..])
  }

  /**
   * A sequence of calls keeps the invariant; the error count grows by the
   * number of error calls, the warning count by the others.
   */
  lemma {:induction false} AddedAllCounts(st: ResultState, calls: seq<MessageCall>)
    requires Consistent(st)
    requires forall i :: 0 <= i < |calls| ==> WellTypedArgs(calls[i].args)
    ensures Consistent(AddedAll(st, calls))
    ensures AddedAll(st, calls).errorCount == st.errorCount + ErrorCalls(calls)
    ensures AddedAll(st, calls).warningCount == st.warningCount + |calls| - ErrorCalls(calls)
    decreases |calls|
  {
    if calls != [] {
      var c := calls[0];
      AddedConsistent(st, c.isError, c.message, c.args);
      AddedAllCounts(Added(st, c.isError, c.message, c.args), calls[1..]);
      assert ErrorCalls(calls[1..]) <= |calls[1..]| by { ErrorCallsBound(calls[1..]); }
    }
  }

  lemma {:induction false} ErrorCallsBound(calls: seq<MessageCall>)
    ensures ErrorCalls(calls) <= |calls|
  {
    if calls != [] {
      ErrorCallsBound(calls[1..]);
    }
  }

  lemma {:induction false} AddedAllSnoc(st: ResultState, calls: seq<MessageCall>, c: MessageCall)
    requires forall i :: 0 <= i < |calls| ==> WellTypedArgs(calls[i].args)
    requires WellTypedArgs(c.args)
    ensures forall i :: 0 <= i < |calls + [c]| ==> WellTypedArgs((calls + [c])[i].args)
    ensures AddedAll(st, calls + [c]) == Added(AddedAll(st, calls), c.isError, c.message, c.args)
    decreases |calls|
  {
    assert forall i :: 0 <= i < |calls + [c]| ==> WellTypedArgs((calls + [c])[i].args) by {
      forall i | 0 <= i < |calls + [c]| ensures WellTypedArgs((calls + [c])[i].args) {
        if i < |calls| { assert (calls + [c])[i] == calls[i]; }
      }
    }
    if calls != [] {
      assert (calls + [c])[1..] == calls[1..] + [c];
      AddedAllSnoc(Added(st, calls[0].isError, calls[0].message, calls[0].args), calls[1..], c);
    }
  }

  lemma {:induction false} AddedAllAppend(st: ResultState, a: seq<MessageCall>, b: seq<MessageCall>)
    requires forall i :: 0 <= i < |a| ==> WellTypedArgs(a[i].args)
    requires forall i :: 0 <= i < |b| ==> WellTypedArgs(b[i].args)
    ensures forall i :: 0 <= i < |a + b| ==> WellTypedArgs((a + b)[i].args)
    ensures AddedAll(st, a + b) == AddedAll(AddedAll(st, a), b)
    decreases |a|
  {
    assert forall i :: 0 <= i < |a + b| ==> WellTypedArgs((a + b)[i].args) by {
      forall i | 0 <= i < |a + b| ensures WellTypedArgs((a + b)[i].args) {
        if i < |a| { assert (a + b)[i] == a[i]; } else { assert (a + b)[i] == b[i - |a|]; }
      }
    }
    if a == [] {
      assert a + b == b;
    } else {
      assert (a + b)[1..] == a[1..] + b;
      AddedAllAppend(Added(st, a[0].isError, a[0].message, a[0].args), a[1..], b);
    }
  }

  /**
   * The methods the `Check_Result` class declares. It has no constructor
   * of its own, so the constructor arguments the engine passes are dropped.
   */
  const ResultMethods: set<string> := {"add_message", "get_errors", "get_warnings", "get_error_count", "get_warning_count"}

  /**
   * Calling method `name` on a `Check_Result`: none when the class declares
   * it, otherwise the message of the `Error` PHP raises.
   */
  function UndefinedMethodError(name: string): Option<string> {
    if name in ResultMethods then None
    else Some("Call to undefined method WordPress\\Plugin_Check\\Checker\\Check_Result::" + name + "()")
  }

  /** `context()` and `plugin()`, which checks ask the result for, are not among them. */
  lemma ContextAndPluginUndefined()
    ensures UndefinedMethodError("context").Some? && UndefinedMethodError("plugin").Some?
    ensures UndefinedMethodError("add_message").None?
  {
  }

  /** The accumulator object of one check run. */
  class CheckResult {
    var errors: Tree
    var warnings: Tree
    var errorCount: nat
    var warningCount: nat

    function State(): ResultState
      reads this
    {
      ResultState(errors, warnings, errorCount, warningCount)
    }

    ghost predicate Valid()
      reads this
    {
      Consistent(State())
    }

    constructor ()
      ensures Valid() && State() == Fresh()
    {
      errors, warnings := [], [];
      errorCount, warningCount := 0, 0;
    }

    /**
     * Appends `$t[$file][$line][$column][] = $r` the way the source does: each
     * missing bucket is created empty, then the record is appended.
     */
    static method AppendRecord(t: Tree, file: string, line: int, column: int, r: Record) returns (t': Tree)
      ensures t' == Insert(t, file, line, column, r)
    {
      ghost var lines := GetOr(t, file, []);
      ghost var columns := GetOr(lines, line, []);
      t' := t;
      if !HasKey(t', file) {
        t' := Put(t', file, []);
        GetPut(t, file, [], file);
        forall x ensures Put(t', file, x) == Put(t, file, x) { PutPut(t, file, [], x); }
      }
      assert HasKey(t', file) && Get(t', file) == lines by { GetPut(t, file, [], file); }
      assert forall x :: Put(t', file, x) == Put(t, file, x);
      ghost var t1 := t';
      if !HasKey(Get(t', file), line) {
        var l1 := Put(Get(t', file), line, []);
        t' := Put(t', file, l1);
        PutPut(t1, file, lines, l1);
        GetPut(t1, file, l1, file);
        GetPut(lines, line, [], line);
        forall y ensures Put(l1, line, y) == Put(lines, line, y) { PutPut(lines, line, [], y); }
      }
      ghost var l2 := Get(t', file);
      assert forall x :: Put(t', file, x) == Put(t, file, x) by {
        forall x ensures Put(t', file, x) == Put(t, file, x) {
          if t' != t1 { PutPut(t1, file, l2, x); }
        }
      }
      assert HasKey(l2, line) && Get(l2, line) == columns;
      assert forall y :: Put(l2, line, y) == Put(lines, line, y);
      ghost var t2 := t';
      if !HasKey(Get(Get(t', file), line), column) {
        var c1 := Put(Get(Get(t', file), line), column, []);
        t' := Put(t', file, Put(Get(t', file), line, c1));
        GetPut(t2, file, Put(l2, line, c1), file);
        GetPut(l2, line, c1, line);
        GetPut(columns, column, [], column);
        forall z ensures Put(c1, column, z) == Put(columns, column, z) { PutPut(columns, column, [], z); }
        forall x ensures Put(t', file, x) == Put(t, file, x) { PutPut(t2, file, Put(l2, line, c1), x); }
        forall y ensures Put(Get(t', file), line, y) == Put(lines, line, y) { PutPut(l2, line, c1, y); }
      }
      ghost var c2 := Get(Get(t', file), line);
      assert HasKey(c2, column) && Get(c2, column) == GetOr(columns, column, []);
      assert forall z :: Put(c2, column, z) == Put(columns, column, z);
      assert forall y :: Put(Get(t', file), line, y) == Put(lines, line, y);
      t' := Put(t', file, Put(Get(t', file), line, Put(Get(Get(t', file), line), column, Get(Get(Get(t', file), line), column) + [r])));
    }

    /**
     * `add_message`: the record is appended in the bucket of its severity and
     * position and the matching count grows by one.
     */
    method AddMessage(isError: bool, message: string, args: Record)
      requires Valid() && WellTypedArgs(args)
      modifies this
      ensures Valid()
      ensures State() == Added(old(State()), isError, message, args)
    {
      ghost var st := State();
      AddedConsistent(st, isError, message, args);
      var pos := Position(message, args);
      var r := StoredRecord(message, args);
      if isError {
        errors := AppendRecord(errors, pos.0, pos.1, pos.2, r);
        errorCount := errorCount + 1;
      } else {
        warnings := AppendRecord(warnings, pos.0, pos.1, pos.2, r);
        warningCount := warningCount + 1;
      }
      assert State() == Added(st, isError, message, args);
    }

    method GetErrors() returns (r: Tree)
      ensures r == errors
    {
      r := errors;
    }

    method GetWarnings() returns (r: Tree)
      ensures r == warnings
    {
      r := warnings;
    }

    /** The error count, which is the number of error records stored. */
    method GetErrorCount() returns (n: nat)
      requires Valid()
      ensures n == errorCount && n == TreeCount(errors)
    {
      n := errorCount;
    }

    /** The warning count, which is the number of warning records stored. */
    method GetWarningCount() returns (n: nat)
      requires Valid()
      ensures n == warningCount && n == TreeCount(warnings)
    {
      n := warningCount;
    }
  }
}
