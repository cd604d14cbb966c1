/**
 * The static-analysis check: it points the command-line arguments at the
 * plugin, lets the code sniffer run, and turns every message of the decoded
 * report into an error or a warning of the result.
 */
module CodeSnifferCheck {
  import opened Php
  import opened Wrappers
  import opened Host
  import opened CheckResults

  /** One message of a file in the decoded report. */
  datatype ReportMessage = ReportMessage(message: string, source: string, severity: string, line: int, column: int)

  /** `$reports['files']`: file name to that file's messages, in report order. */
  type ReportFiles = Entries<string, seq<ReportMessage>>

  /**
   * What the sniffer run gives back: it threw, or it printed a report that
   * decodes to a `files` array (none when the output does not decode or has
   * no such key).
   */
  datatype RunnerOutcome = RunnerThrew(error: string) | RunnerPrinted(files: Option<ReportFiles>)

  /** The argument vector the sniffer is run with. */
  function CommandArgs(pluginPath: string): (r: Value)
    ensures r.List? && |r.items| == 6
    ensures r.items[1] == Str(pluginPath)
  {
    List([Str(""), Str(pluginPath), Str("--extensions=php"), Str("--standard=WordPress-Core"),
          Str("--report=Json"), Str("--report-width=9999")])
  }

  /** `$_SERVER['argv']` as read before the run: null when it is not there. */
  function OriginalArgs(server: map<string, Value>): Value {
    if "argv" in server then server["argv"] else Null
  }

  /** `strtoupper( $type ) === 'ERROR'`. */
  predicate IsErrorType(severity: string) {
    StrToUpper(severity) == "ERROR"
  }

  /**
   * The severity test ignores case and nothing else: a type is an error
   * exactly when it has five characters and each is the upper- or the
   * lower-case letter of "ERROR" at that place.
   */
  lemma IsErrorTypeIgnoresCase(severity: string)
    ensures IsErrorType(severity) <==>
              |severity| == 5 && forall i :: 0 <= i < 5 ==> severity[i] == "ERROR"[i] || severity[i] == "error"[i]
  {
    var upper := StrToUpper(severity);
    if IsErrorType(severity) {
      forall i | 0 <= i < 5 ensures severity[i] == "ERROR"[i] || severity[i] == "error"[i] {
        assert ToUpperChar(severity[i]) == upper[i] == "ERROR"[i];
      }
    }
    if |severity| == 5 && forall i :: 0 <= i < 5 ==> severity[i] == "ERROR"[i] || severity[i] == "error"[i] {
      forall i | 0 <= i < 5 ensures upper[i] == "ERROR"[i] {
        assert upper[i] == ToUpperChar(severity[i]);
      }
      assert upper == "ERROR";
    }
  }

  /** Instances of the case rule: "error" and "Error" are errors, "WARNING" and "" are not. */
  lemma IsErrorTypeExamples()
    ensures IsErrorType("ERROR") && IsErrorType("error") && IsErrorType("Error")
    ensures !IsErrorType("WARNING") && !IsErrorType("warning") && !IsErrorType("")
  {
    IsErrorTypeIgnoresCase("error");
    IsErrorTypeIgnoresCase("Error");
    IsErrorTypeIgnoresCase("WARNING");
    IsErrorTypeIgnoresCase("warning");
  }

  /** The arguments passed to `add_message` for one message of file `fileName`. */
  function MessageArgs(fileName: string, m: ReportMessage): (args: Record)
    ensures WellTypedArgs(args)
  {
    var args: Record := [("code", Str(m.source)), ("file", Str(fileName)), ("line", Int(m.line)), ("column", Int(m.column))];
    assert Keys(args) == ["code", "file", "line", "column"];
    assert Distinct(Keys(args));
    GetAt(args, 1);
    GetAt(args, 2);
    GetAt(args, 3);
    args
  }

  /**
   * Each message is recorded at its file, line and column, under its source
   * as code and with its text.
   */
  lemma MessageArgsRecorded(fileName: string, m: ReportMessage)
    ensures Position(m.message, MessageArgs(fileName, m)) == (fileName, m.line, m.column)
    ensures StoredRecord(m.message, MessageArgs(fileName, m)) ==
            [("message", Str(m.message)), ("code", Str(m.source)), ("file", Str(fileName))]
  {
    var args := MessageArgs(fileName, m);
    assert Keys(args) == ["code", "file", "line", "column"];
    GetAt(args, 0);
    GetAt(args, 1);
    GetAt(args, 2);
    GetAt(args, 3);
    StoredRecordFields(m.message, args);
  }

  /** The `add_message` call of one message. */
  function MessageCallOf(fileName: string, m: ReportMessage): MessageCall {
    MessageCall(IsErrorType(m.severity), m.message, MessageArgs(fileName, m))
  }

  /** The calls for one file, one per message in order. */
  function FileCalls(fileName: string, messages: seq<ReportMessage>): (r: seq<MessageCall>)
    ensures |r| == |messages|
    ensures forall i :: 0 <= i < |r| ==> r[i] == MessageCallOf(fileName, messages[i])
    ensures forall i :: 0 <= i < |r| ==> WellTypedArgs(r[i].args)
  {
    seq(|messages|, i requires 0 <= i < |messages| => MessageCallOf(fileName, messages[i]))
  }

  /** The calls for a list of files, file by file. */
  function FilesCalls(files: ReportFiles): (r: seq<MessageCall>)
    ensures forall i :: 0 <= i < |r| ==> WellTypedArgs(r[i].args)
    decreases |files|
  {
    if files == [] then []
    else
      var rest := FilesCalls(files[1..]);
      var here := FileCalls(files[0].0, files[0].1);
      assert forall i :: 0 <= i < |here + rest| ==> WellTypedArgs((here + rest)[i].args) by {
        forall i | 0 <= i < |here + rest| ensures WellTypedArgs((here + rest)[i].args) {
          if i < |here| { assert (here + rest)[i] == here[i]; } else { assert (here + rest)[i] == rest[i - |here|]; }
        }
      }
      here + rest
  }

  /** The calls a decoded report leads to; none when there is no `files` array. */
  function ReportCalls(files: Option<ReportFiles>): (r: seq<MessageCall>)
    ensures forall i :: 0 <= i < |r| ==> WellTypedArgs(r[i].args)
  {
    if files.None? then [] else FilesCalls(files.value)
  }

  /** The number of messages in a report. */
  function TotalMessages(files: ReportFiles): nat
    decreases |files|
  {
    if files == [] then 0 else |files[0].1| + TotalMessages(files[1..])
  }

  /** The number of messages in a report whose type is an error. */
  function ErrorMessages(files: ReportFiles): nat
    decreases |files|
  {
    if files == [] then 0 else ErrorCalls(FileCalls(files[0].0, files[0].1)) + ErrorMessages(files[1..])
  }

  lemma {:induction false} ErrorCallsAppend(a: seq<MessageCall>, b: seq<MessageCall>)
    ensures ErrorCalls(a + b) == ErrorCalls(a) + ErrorCalls(b)
    decreases |a|
  {
    if a == [] {
      assert a + b == b;
    } else {
      assert (a + b)[1..] == a[1..] + b;
      ErrorCallsAppend(a[1..], b);
    }
  }

  /** There is one call per message, file after file; the error calls are the error-typed messages. */
  lemma {:induction false} FilesCallsCount(files: ReportFiles)
    ensures |FilesCalls(files)| == TotalMessages(files)
    ensures ErrorCalls(FilesCalls(files)) == ErrorMessages(files)
    decreases |files|
  {
    if files != [] {
      FilesCallsCount(files[1..]);
      ErrorCallsAppend(FileCalls(files[0].0, files[0].1), FilesCalls(files[1..]));
    }
  }

  lemma {:induction false} FilesCallsAppend(files: ReportFiles, f: (string, seq<ReportMessage>))
    ensures FilesCalls(files + [f]) == FilesCalls(files) + FileCalls(f.0, f.1)
    decreases |files|
  {
    if files == [] {
      assert [f][1..] == [];
    } else {
      assert (files + [f])[1..] == files[1..] + [f];
      FilesCallsAppend(files[1..], f);
    }
  }

  /**
   * Translating a report keeps the result's invariant: the number of error
   * records grows by the error-typed messages and the total by all messages;
   * a report with no files adds nothing.
   */
  lemma ReportTranslation(st: ResultState, files: Option<ReportFiles>)
    requires Consistent(st)
    ensures Consistent(AddedAll(st, ReportCalls(files)))
    ensures files.Some? ==>
              AddedAll(st, ReportCalls(files)).errorCount == st.errorCount + ErrorMessages(files.value) &&
              AddedAll(st, ReportCalls(files)).errorCount + AddedAll(st, ReportCalls(files)).warningCount ==
              st.errorCount + st.warningCount + TotalMessages(files.value)
    ensures files.None? || files.value == [] ==> AddedAll(st, ReportCalls(files)) == st
  {
    AddedAllCounts(st, ReportCalls(files));
    if files.Some? {
      FilesCallsCount(files.value);
      ErrorCallsBound(FilesCalls(files.value));
    }
  }

  lemma RecordStep(st0: ResultState, fileName: string, messages: seq<ReportMessage>, j: nat,
                    before: ResultState, after: ResultState)
    requires j < |messages|
    requires before == AddedAll(st0, FileCalls(fileName, messages[..j]))
    requires after == Added(before, IsErrorType(messages[j].severity), messages[j].message, MessageArgs(fileName, messages[j]))
    ensures after == AddedAll(st0, FileCalls(fileName, messages[..j + 1]))
  {
    var c := MessageCallOf(fileName, messages[j]);
    SliceSnoc(messages, j);
    FileCallsSnoc(fileName, messages[..j], messages[j]);
    AddedAllSnoc(st0, FileCalls(fileName, messages[..j]), c);
  }

  lemma FileCallsSnoc(fileName: string, messages: seq<ReportMessage>, m: ReportMessage)
    ensures FileCalls(fileName, messages + [m]) == FileCalls(fileName, messages) + [MessageCallOf(fileName, m)]
  {
    var a := FileCalls(fileName, messages + [m]);
    var b := FileCalls(fileName, messages) + [MessageCallOf(fileName, m)];
    assert |a| == |b|;
    forall i | 0 <= i < |a| ensures a[i] == b[i] {
      if i < |messages| {
        assert (messages + [m])[i] == messages[i];
      }
    }
  }

  lemma FileStep(st0: ResultState, files: ReportFiles, i: nat, before: ResultState, after: ResultState)
    requires i < |files|
    requires before == AddedAll(st0, FilesCalls(files[..i]))
    requires after == AddedAll(before, FileCalls(files[i].0, files[i].1))
    ensures after == AddedAll(st0, FilesCalls(files[..i + 1]))
  {
    SliceSnoc(files, i);
    FilesCallsAppend(files[..i], files[i]);
    AddedAllAppend(st0, FilesCalls(files[..i]), FileCalls(files[i].0, files[i].1));
  }

  class PhpCodeSnifferCheck {
    constructor ()
    {
    }

    /** The inner loop of `run`: one `add_message` per message of one file, in order. */
    static method RecordFile(result: CheckResult, fileName: string, messages: seq<ReportMessage>)
      requires result.Valid()
      modifies result
      ensures result.Valid()
      ensures result.State() == AddedAll(old(result.State()), FileCalls(fileName, messages))
    {
      var j := 0;
      while j < |messages|
        invariant 0 <= j <= |messages|
        invariant result.Valid()
        invariant result.State() == AddedAll(old(result.State()), FileCalls(fileName, messages[..j]))
      {
        var m := messages[j];
        ghost var before := result.State();
        result.AddMessage(IsErrorType(m.severity), m.message, MessageArgs(fileName, m));
        RecordStep(old(result.State()), fileName, messages, j, before, result.State());
        j := j + 1;
      }
      assert messages[..j] == messages;
    }

    /** The outer loop of `run`: file by file, skipping files without messages. */
    static method RecordFiles(result: CheckResult, files: ReportFiles)
      requires result.Valid()
      modifies result
      ensures result.Valid()
      ensures result.State() == AddedAll(old(result.State()), FilesCalls(files))
    {
      var i := 0;
      while i < |files|
        invariant 0 <= i <= |files|
        invariant result.Valid()
        invariant result.State() == AddedAll(old(result.State()), FilesCalls(files[..i]))
      {
        var (fileName, messages) := files[i];
        ghost var before := result.State();
        if messages != [] {
          RecordFile(result, fileName, messages);
        }
        FileStep(old(result.State()), files, i, before, result.State());
        i := i + 1;
      }
      assert files[..i] == files;
    }

    /**
     * `run` as written: its first statement asks the result for its
     * `context()`, a method `Check_Result` does not have, so PHP raises an
     * `Error` there. No later statement runs: `argv` is left alone, the
     * sniffer does not start and nothing is recorded (the method changes
     * nothing). The `Error` is no `Exception`, so it passes every
     * `catch ( Exception $e )` of the engine and the command.
     */
    method RunAsWritten(env: Env, result: CheckResult, runner: RunnerOutcome) returns (fatal: string)
      ensures Some(fatal) == UndefinedMethodError("context")
      ensures fatal == "Call to undefined method WordPress\\Plugin_Check\\Checker\\Check_Result::context()"
    {
      var missing := UndefinedMethodError("context");
      fatal := missing.value;
    }

    /**
     * `run` with the plugin's path given, as `$result->plugin()->path( '' )`
     * is meant to supply it: the arguments are set for the sniffer; if it
     * throws an `Exception`, they are put back and the failure is passed on
     * with nothing recorded; otherwise they stay set and every message of
     * the report is recorded, file by file and message by message.
     */
    method Run(env: Env, result: CheckResult, pluginPath: string, runner: RunnerOutcome) returns (o: Outcome)
      requires result.Valid()
      modifies env, result
      ensures result.Valid()
      ensures runner.RunnerThrew? ==>
                && o == Fail(runner.error)
                && env.State() == old(env.State()).(server := old(env.server)["argv" := OriginalArgs(old(env.server))])
                && result.State() == old(result.State())
      ensures runner.RunnerPrinted? ==>
                && o == Pass
                && env.State() == old(env.State()).(server := old(env.server)["argv" := CommandArgs(pluginPath)])
                && result.State() == AddedAll(old(result.State()), ReportCalls(runner.files))
    {
      var origCmdArgs := if "argv" in env.server then env.server["argv"] else Null;
      env.server := env.server["argv" := CommandArgs(pluginPath)];
      if runner.RunnerThrew? {
        env.server := env.server["argv" := origCmdArgs];
        return Fail(runner.error);
      }
      o := Pass;
      if runner.files.None? || runner.files.value == [] {
        assert ReportCalls(runner.files) == [];
        return;
      }
      assert ReportCalls(runner.files) == FilesCalls(runner.files.value);
      RecordFiles(result, runner.files.value);
    }
  }
}
