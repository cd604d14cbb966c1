# Plugin Check engine, modelled in Dafny

This project models the engine of the WordPress Plugin Check plugin. The
engine has six parts:

- **Result accumulator** (`CheckResults`, `check_result.dfy`). A `Check_Result`
  holds two trees, file → line → column → records, one for errors and one for
  warnings, and two counters. The invariant `Consistent` ties each counter to
  the number of records in its tree. `AddMessage` appends a record to the
  bucket at its position.
- **Orchestrator** (`Checker`, `checks.dfy`). A `Checks` object prepares the
  environment in two steps and returns one combined cleanup. It refuses to run
  checks until it is prepared. It wraps every check that is also a preparation
  in prepare, run and exactly one cleanup. The checks are data: each has a
  class name, an identity, a prepare behaviour (not a preparation, succeeds,
  throws) and a run behaviour (the `add_message` calls it makes, then whether
  it throws). The orchestrator records every prepare, run and cleanup call in
  an event trace, and its methods are proved against the trace and result
  functions `AllEvents`, `AllOutcome` and `AllAdds`.
- **Preparation steps**:
  - `ActivatePlugin` (`activate_plugin.dfy`) registers `filter_active_plugins`
    on two option hooks.
  - `MinimalTheme` (`minimal_theme.dfy`) registers seven theme filters and an
    optional themes root.
- **Request-driven check base** (`RequestCheck`, `request_check.dfy`). It
  snapshots and restores the superglobals and the tracked globals, simulates a
  request for each URL in `go_to`, and loops over the URLs in `run`.
- **Static-analysis check** (`CodeSnifferCheck`, `codesniffer_check.dfy`). It
  sets and restores `$_SERVER['argv']`, and turns a decoded report into one
  `add_message` call per message.
- **WP-CLI command** (`CliCommand`, `command.dfy`). This part covers:
  - resolving the plugin argument;
  - choosing the default output fields;
  - flattening and sorting one file's findings;
  - the order in which files are shown;
  - the cached `Checks` instance;
  - the guard chain that decides whether to prepare early.

The host platform sits in `Host` (`host.dfy`) as explicit state in one `Env`
object:

- the filter registry, as a set of (hook, callback) pairs;
- `$wp_theme_directories`;
- `$GLOBALS`, `$_GET`, `$_POST` and `$_SERVER`, as maps;
- `WP_PLUGIN_DIR` and `WP_CONTENT_DIR`;
- the set of existing files, which stands in for `file_exists`.

Each preparation's effect is a pure function on the state value
(`Prepared`/`CleanedUp`), and its methods are proved to produce exactly that
state. PHP's ordered arrays are sequences of key/value pairs (`Php.Entries`)
with PHP's `isset`, read, assignment, `unset` and `array_merge` semantics.
Findings are recorded under **Findings** below. For each one the model holds
the code as written next to a corrected member, and the rest of the model
uses the corrected member.

Several things are parameters of the model rather than computed by it:

- `get_plugins()`: a list of installed basenames;
- `$_SERVER['argv']`: an optional list of words;
- `parse_url` and `parse_str`: functions;
- the sniffer run: a `RunnerOutcome` value;
- what `run_for_url` does to the host and whether it throws: a function `forUrl`;
- the identities of the `WP_Query` and `WP` objects `go_to` creates, and the query variables it unsets: a `Rebuild` value per request;
- a check's behaviour: a `Check` value.

## Model

| member | source | states |
|---|---|---|
| CheckResults.Fresh | includes/Checker/Check_Result.php:23-47 | a new result has no errors, no warnings and both counts 0, and satisfies the count invariant |
| CheckResults.CheckResult.constructor | includes/Checker/Check_Result.php:23-47 | a new accumulator is in the fresh state and keeps the invariant |
| CheckResults.InsertCount | includes/Checker/Check_Result.php:93-97 | appending one record raises the number of records in the tree by exactly one |
| CheckResults.InsertBucket | includes/Checker/Check_Result.php:96 | the target bucket gains the record at its end; every other bucket keeps its records |
| CheckResults.InsertKeys | includes/Checker/Check_Result.php:87-95 | missing file, line and column buckets exist afterwards; a new file key goes at the end and the existing keys keep their order |
| CheckResults.InsertWellFormed | includes/Checker/Check_Result.php:87-96 | appending keeps every level's keys unique |
| CheckResults.MessageDataIsMerge | includes/Checker/Check_Result.php:66-79 | the explicit `$data` (message, then each documented argument or its default) equals the `array_merge` of message, defaults and the intersected arguments |
| CheckResults.MessageDataPosition | includes/Checker/Check_Result.php:66-79 | `$data` holds file, line and column as the given arguments or their defaults ("", 0, 0) |
| CheckResults.Position | includes/Checker/Check_Result.php:81-83 | the corrected position is the file, line and column argument or its default |
| CheckResults.StoredRecordFields | includes/Checker/Check_Result.php:73-84 | the corrected stored record is exactly message text, code and file, each argument or its default |
| CheckResults.StoredRecordAsWrittenDropsMessage | includes/Checker/Check_Result.php:81-96 | as written, the stored record for the static-analysis check's arguments holds only code and file; the message text is lost |
| CheckResults.AddedConsistent | includes/Checker/Check_Result.php:86-110 | `add_message` keeps the invariant; its severity's count grows by exactly 1, the other count and the other tree stay |
| CheckResults.AddedBuckets | includes/Checker/Check_Result.php:86-110 | `add_message` appends the record at the end of the bucket at its position; every other bucket of both severities is unchanged |
| CheckResults.AddedAllCounts | includes/Checker/Check_Result.php:86-110 | a sequence of calls keeps the invariant; the error count grows by the error calls and the warning count by the others |
| CheckResults.AddedAllAppend | includes/Checker/Check_Result.php:65-111 | recording two sequences of calls one after the other is recording their concatenation |
| CheckResults.CheckResult.AppendRecord | includes/Checker/Check_Result.php:87-96 | the three `isset`/create steps and the `[]` append give the tree `Insert` describes |
| CheckResults.CheckResult.AddMessage | includes/Checker/Check_Result.php:65-111 | the new state is `Added` of the old one and the invariant holds |
| CheckResults.CheckResult.GetErrors | includes/Checker/Check_Result.php:120-122 | returns the error tree, changing nothing |
| CheckResults.CheckResult.GetWarnings | includes/Checker/Check_Result.php:131-133 | returns the warning tree, changing nothing |
| CheckResults.CheckResult.GetErrorCount | includes/Checker/Check_Result.php:142-144 | returns the error count, which is the number of error records |
| CheckResults.CheckResult.GetWarningCount | includes/Checker/Check_Result.php:153-155 | returns the warning count, which is the number of warning records |
| Checker.CheckEventsCount | includes/Checker/Checks.php:183-202 | how often each event occurs among the calls for one check |
| Checker.CheckEventsBracketed | includes/Checker/Checks.php:183-202 | a non-preparation is only run; a preparation's `run` follows its `prepare` and is followed by exactly one cleanup whether it returns or throws an `Exception`; a `prepare` that throws an `Exception` stops before `run` and adds nothing |
| Checker.AllOutcomePass | includes/Checker/Checks.php:126-131 | running all checks succeeds exactly when every check succeeds |
| Checker.AllAppend | includes/Checker/Checks.php:126-131 | running `a + b` is running `a` then, if `a` did not throw, `b`; after a throw the rest does not run |
| Checker.AllAppendEvents | includes/Checker/Checks.php:126-131 | the trace and outcome of running `a + b`, split by whether `a` throws |
| Checker.AllAppendAdds | includes/Checker/Checks.php:126-131 | the messages added by running `a + b`, split by whether `a` throws |
| Checker.AllCleanedUpOnce | includes/Checker/Checks.php:123-202 | for distinct identities, every check that ran and is a successful preparation is cleaned up exactly once, the others never |
| Checker.NoCleanupOf | includes/Checker/Checks.php:126-131 | a check that is not in the list is never cleaned up |
| Checker.FindCheckAsWrittenNeverFinds | includes/Checker/Checks.php:157 | as written, the strict search of a name among check objects finds nothing for any name |
| Checker.FindCheck | includes/Checker/Checks.php:157-166 | the corrected lookup gives the first check with that class name, or none exactly when no check has it |
| Checker.FindCheckDiffers | includes/Checker/Checks.php:157 | a check is found by its class name with the corrected lookup and missed by the lookup as written |
| Checker.PrepareThenCleanup | includes/Checker/Checks.php:77-105 | both preparation steps followed by the combined cleanup restore the host when none of their registrations were present before and the themes root is not one found only under the content directory |
| Checker.Checks.constructor | includes/Checker/Checks.php:52-66 | a new instance is unprepared with an empty trace, and `plugin_basename` gives its basename |
| Checker.Checks.Prepare | includes/Checker/Checks.php:77-94 | activation runs first; if its plugin file is missing it fails with the not-found message, the host is unchanged and the flag keeps its value; otherwise the minimal theme follows, the flag is set and both cleanups are returned in order |
| Checker.Checks.PrepareTheme | includes/Checker/Checks.php:82-94 | the minimal-theme step runs and the flag is set |
| Checker.Checks.Cleanup | includes/Checker/Checks.php:96-104 | each collected cleanup runs once, in the order of preparation, then the flag is cleared |
| Checker.Checks.RunScripted | includes/Checker/Checks.php:189-201 | a check's `run` adds its messages to the shared result, then returns or throws |
| Checker.Checks.AddAll | includes/Checker/Checks.php:189-201 | the messages of one run are recorded in order and the result keeps its invariant |
| Checker.Checks.RunCheckWithResult | includes/Checker/Checks.php:183-202 | the trace grows by `CheckEvents`, the result by `CheckAdds`, and the outcome is `CheckOutcome` |
| Checker.Checks.RunWithPreparation | includes/Checker/Checks.php:185-197 | for a preparation: prepare, then if it succeeds run and cleanup, with the exception passed on after the cleanup |
| Checker.Checks.RunPreparedCheck | includes/Checker/Checks.php:188-196 | after a successful prepare, the cleanup runs once both when `run` returns and when it throws an `Exception` |
| Checker.Checks.RunAllChecks | includes/Checker/Checks.php:116-134 | refused with the not-prepared message unless prepared; otherwise all checks run in order against one fresh result and the first exception stops the run |
| Checker.Checks.RunChecksFrom | includes/Checker/Checks.php:123-131 | the loop over the checks: trace `AllEvents`, result `AllAdds`, outcome `AllOutcome` |
| Checker.Checks.RunSingleCheck | includes/Checker/Checks.php:146-171 | refused unless prepared; an unknown class name is refused before anything runs; otherwise only the first check of that class runs, against a fresh result |
| ActivatePlugin.ActivatePluginPreparation.FilterActivePlugins | includes/Checker/Preparations/Activate_Plugin_Preparation.php:82-92 | the output always holds the basename; a non-list gives exactly `[basename]`; a list holding it is returned as is; otherwise the basename is appended |
| ActivatePlugin.ActivatePluginPreparation.FilterActivePluginsProperties | includes/Checker/Preparations/Activate_Plugin_Preparation.php:82-92 | the filter is idempotent, keeps the input list as a prefix, and grows it by one exactly when the basename was missing |
| ActivatePlugin.ActivatePluginPreparation.Prepare | includes/Checker/Preparations/Activate_Plugin_Preparation.php:48-62 | a missing plugin file fails with "Plugin file for … not found." and registers nothing; otherwise the filter is registered on both hooks |
| ActivatePlugin.ActivatePluginPreparation.Cleanup | includes/Checker/Preparations/Activate_Plugin_Preparation.php:68-71 | both registrations are removed |
| ActivatePlugin.ActivatePluginPreparation.PrepareThenCleanup | includes/Checker/Preparations/Activate_Plugin_Preparation.php:61-70 | after prepare and cleanup, no registration of the step remains and the rest of the host is as before |
| MinimalTheme.RemoveFirstProperties | includes/Checker/Preparations/Use_Minimal_Theme_Preparation.php:90-93 | an absent path leaves the list unchanged; a present one loses its first occurrence only, the list is one shorter, order is kept and the multiset loses one copy |
| MinimalTheme.RemoveFirstAppended | includes/Checker/Preparations/Use_Minimal_Theme_Preparation.php:73-93 | removing a path that was just appended to a list without it gives the list back |
| MinimalTheme.UseMinimalThemePreparation.constructor | includes/Checker/Preparations/Use_Minimal_Theme_Preparation.php:46-49 | `get_theme_slug` returns the slug given to the constructor |
| MinimalTheme.UseMinimalThemePreparation.Registrations | includes/Checker/Preparations/Use_Minimal_Theme_Preparation.php:62-70 | the step registers exactly seven distinct (hook, callback) pairs |
| MinimalTheme.UseMinimalThemePreparation.Prepare | includes/Checker/Preparations/Use_Minimal_Theme_Preparation.php:60-75 | the seven registrations are added, and the themes root is registered only when it is not empty |
| MinimalTheme.UseMinimalThemePreparation.Cleanup | includes/Checker/Preparations/Use_Minimal_Theme_Preparation.php:77-96 | the seven registrations are removed, and only when a themes root is configured does the first occurrence of it leave the directory list |
| MinimalTheme.UseMinimalThemePreparation.PrepareThenCleanup | includes/Checker/Preparations/Use_Minimal_Theme_Preparation.php:60-96 | after prepare and cleanup none of the seven registrations remain and the globals are untouched; when they were absent, the root was unregistered and it is not found only under the content directory, the host is exactly as before |
| MinimalTheme.UseMinimalThemePreparation.CleanupDropsEarlierRegistration | includes/Checker/Preparations/Use_Minimal_Theme_Preparation.php:73-93 | when the themes root was already registered, the cleanup takes one entry out of the list `prepare` left; if the root exists as given it was not added again, so the list ends one shorter than it started |
| MinimalTheme.UseMinimalThemePreparation.CleanupKeepsContentDirRegistration | includes/Checker/Preparations/Use_Minimal_Theme_Preparation.php:73-93 | a themes root that exists only under the content directory is registered with that prefix, and the cleanup, which removes the path as given, leaves the prefixed entry in the list |
| Host.RegisteredDirectories | includes/Checker/Preparations/Use_Minimal_Theme_Preparation.php:73-75 | `register_theme_directory` leaves the list as it was when neither the path nor the path under the content directory exists; otherwise it appends the untrailed existing path, exactly when that is neither empty nor already listed |
| Host.ThemeDirectoryFound | includes/Checker/Preparations/Use_Minimal_Theme_Preparation.php:74 | the directory `register_theme_directory` settles on is the path itself when it exists, else the path under the content directory when that exists, and none exactly when neither exists |
| Host.Env.RegisterThemeDirectory | includes/Checker/Preparations/Use_Minimal_Theme_Preparation.php:74 | the directory list becomes `RegisteredDirectories` of the old one; nothing else changes |
| RequestCheck.SnapshotRestore | includes/Checker/Checks/Abstract_Request_Check.php:53-104 | after cleanup the superglobals are as at prepare time; a tracked global that was set gets its value back, one that was not set is unset; untracked globals stay as they are when the cleanup runs |
| RequestCheck.AbstractRequestCheck.Prepare | includes/Checker/Checks/Abstract_Request_Check.php:53-73 | the snapshot holds the three superglobals and every tracked global that is set; nothing changes |
| RequestCheck.AbstractRequestCheck.RestoreGlobal | includes/Checker/Checks/Abstract_Request_Check.php:82-86 | one tracked global is assigned its saved value, or unset when none was saved; nothing else changes |
| RequestCheck.AbstractRequestCheck.RestoreQueryGlobals | includes/Checker/Checks/Abstract_Request_Check.php:81-87 | the loop over the query globals assigns each saved one and unsets the others |
| RequestCheck.AbstractRequestCheck.Cleanup | includes/Checker/Checks/Abstract_Request_Check.php:76-103 | the host becomes `Restored` of its state at cleanup time and the snapshot |
| RequestCheck.GoToEffects | includes/Checker/Checks/Abstract_Request_Check.php:155-202 | after `go_to`'s own statements, before its dispatch to `WP::main` at line 216: no query global that was set, and no query variable it unsets, is present; a query global holding null keeps it; `wp_query` and `wp_the_query` hold one new `WP_Query` and `wp` a new `WP`, unless they are among the unset variables; every other global keeps its value; `$_POST` is empty; `$_GET` is the parsed query of a full URL with a query and empty otherwise; `PATH_INFO` is gone; the rest of `$_SERVER` stays; `REQUEST_URI` is set to `RequestUri`: for a URL with a scheme, its path (or "") followed by "?" and the query when there is one, and otherwise the URL itself (lines 164-174) |
| RequestCheck.AbstractRequestCheck.GoTo | includes/Checker/Checks/Abstract_Request_Check.php:155-202 | the host becomes `GoToState`, and the dispatch receives the URL's query or "" |
| RequestCheck.AbstractRequestCheck.ClearQueryGlobals | includes/Checker/Checks/Abstract_Request_Check.php:158-162 | the loop unsets each query global that is set and leaves every other global as it was |
| RequestCheck.AbstractRequestCheck.RebuildQuery | includes/Checker/Checks/Abstract_Request_Check.php:185-202 | the query objects are replaced by new ones and then every listed query variable is unset, as `RebuiltGlobals` describes |
| RequestCheck.RunEventsShape | includes/Checker/Checks/Abstract_Request_Check.php:116-122 | each URL in order yields exactly two events, its request and then the check for it, with nothing in between |
| RequestCheck.AbstractRequestCheck.Run | includes/Checker/Checks/Abstract_Request_Check.php:116-122 | the trace grows by the events, the host becomes the state and the outcome is the one `RunUpTo` gives: each URL is requested and then checked, and an exception from `run_for_url` ends the loop and is passed on |
| RequestCheck.AbstractRequestCheck.RunUrl | includes/Checker/Checks/Abstract_Request_Check.php:119-120 | one pass of the loop: `go_to` and then `run_for_url` on the state it leaves |
| RequestCheck.RunUpToProperties | includes/Checker/Checks/Abstract_Request_Check.php:116-144 | the URLs that ran are a prefix of the list, each requested and then checked; all of them ran when nothing threw; otherwise the last one that ran threw the exception passed on and every earlier one returned |
| RequestCheck.RunUpToStops | includes/Checker/Checks/Abstract_Request_Check.php:116-122 | once a URL's check has thrown, the later URLs change nothing |
| RequestCheck.RunUpToQuiet | includes/Checker/Checks/Abstract_Request_Check.php:116-122 | when `run_for_url` leaves the host as it is and never throws, `run` requests every URL in turn and succeeds |
| CodeSnifferCheck.CommandArgs | includes/Checker/PHP_CodeSniffer_Check.php:36-43 | the sniffer's argument vector is the fixed six-word list with the plugin path second |
| CodeSnifferCheck.IsErrorTypeIgnoresCase | includes/Checker/PHP_CodeSniffer_Check.php:67 | a severity is an error exactly when it has five characters, each the upper- or lower-case letter of "ERROR" at that place |
| CodeSnifferCheck.MessageArgsRecorded | includes/Checker/PHP_CodeSniffer_Check.php:66-75 | each message is recorded at its file, line and column, under its source as code and with its text |
| CodeSnifferCheck.FilesCallsCount | includes/Checker/PHP_CodeSniffer_Check.php:61-77 | one call per message, files in order then messages in order; the error calls are exactly the error-typed messages |
| CodeSnifferCheck.ReportTranslation | includes/Checker/PHP_CodeSniffer_Check.php:57-77 | the translation keeps the invariant, raises the error count by the error-typed messages and the total by all messages; a report without files adds nothing |
| CodeSnifferCheck.PhpCodeSnifferCheck.RecordFile | includes/Checker/PHP_CodeSniffer_Check.php:65-76 | the inner loop records one file's messages in order |
| CodeSnifferCheck.PhpCodeSnifferCheck.RecordFiles | includes/Checker/PHP_CodeSniffer_Check.php:61-77 | the outer loop records every file's messages, skipping files without messages |
| CodeSnifferCheck.PhpCodeSnifferCheck.Run | includes/Checker/PHP_CodeSniffer_Check.php:29-78 | with the plugin path given: if the sniffer throws, `argv` is put back and the failure passed on with nothing recorded; otherwise `argv` stays set to the sniffer's arguments and the report is recorded |
| CodeSnifferCheck.PhpCodeSnifferCheck.RunAsWritten | includes/Checker/PHP_CodeSniffer_Check.php:29-30 | as written, the first statement calls `context()` on the result. `Check_Result` declares only `add_message` and the four getters (Check_Result.php:65-155), so the call ends in the Error "Call to undefined method WordPress\\Plugin_Check\\Checker\\Check_Result::context()" before anything else happens |
| CliCommand.FirstInDirectory | includes/CLI/Plugin_Check_Command.php:213-217 | the first installed basename that starts with `slug/`, or none exactly when none does |
| CliCommand.PluginFromArgsProperties | includes/CLI/Plugin_Check_Command.php:189-225 | an empty argument ("" or "0" or none) is rejected; an installed basename is returned verbatim; a slug with '/' after its first character is rejected; otherwise the result is the first installed basename in that directory; any success is installed |
| CliCommand.PluginCheckCommand.GetPluginFromArgs | includes/CLI/Plugin_Check_Command.php:189-225 | the lookup loop returns exactly `PluginFromArgs` |
| CliCommand.DefaultFieldsFor | includes/CLI/Plugin_Check_Command.php:235-258 | "type" is among the default fields exactly when neither ignore flag is set; the fields are one of the two lists |
| CliCommand.DefaultFields | includes/CLI/Plugin_Check_Command.php:243-252 | the corrected choice: "type" is shown exactly when neither `--ignore-errors` nor `--ignore-warnings` is given |
| CliCommand.IgnoreFlagsAsWrittenHaveNoEffect | includes/CLI/Plugin_Check_Command.php:149-155 | as written, `--ignore-errors` keeps "type" in the fields and leaves every error shown; the corrected reading drops both |
| CliCommand.FileRowsCount | includes/CLI/Plugin_Check_Command.php:272-299 | one file's flattened rows are as many as its records |
| CliCommand.RowFields | includes/CLI/Plugin_Check_Command.php:275-282 | a flattened row has the added type, line and column, overriding the record's, and keeps every other field of the record |
| CliCommand.FileRowsFrom | includes/CLI/Plugin_Check_Command.php:272-285 | every flattened row comes from a record at its line and column bucket |
| CliCommand.FileRowsHas | includes/CLI/Plugin_Check_Command.php:272-285 | every record gives a flattened row |
| CliCommand.ComparePositions | includes/CLI/Plugin_Check_Command.php:303-317 | the comparator's answer is always -1, 0 or 1 |
| CliCommand.CompareRows | includes/CLI/Plugin_Check_Command.php:303-317 | on flattened rows, the comparator orders by bucket line, then bucket column |
| CliCommand.SortByPosition | includes/CLI/Plugin_Check_Command.php:301-318 | the array ends sorted by the comparator and is a permutation of the original |
| CliCommand.Insert | includes/CLI/Plugin_Check_Command.php:301-318 | one insertion step: the element moves back past every greater one; the prefix stays sorted and the elements stay the same |
| CliCommand.AppendRows | includes/CLI/Plugin_Check_Command.php:272-299 | the nested loops append exactly the rows `FileRows` describes |
| CliCommand.FlattenFileResults | includes/CLI/Plugin_Check_Command.php:269-321 | the result is sorted by (line, column) and is a permutation of the error rows followed by the warning rows |
| CliCommand.FlattenedRows | includes/CLI/Plugin_Check_Command.php:269-321 | the flattened result has one row per record; each row is an ERROR row from an error bucket or a WARNING row from a warning bucket; every record is present |
| CliCommand.WithoutFiles | includes/CLI/Plugin_Check_Command.php:164-167 | the warnings left after the first loop are those of files without errors |
| CliCommand.ReportsProperties | includes/CLI/Plugin_Check_Command.php:161-176 | the files with errors come first, in order, with all of the same file's warnings; every other file with warnings follows, with no errors; a file is shown exactly when it has findings, and never twice |
| CliCommand.IgnoredFindings | includes/CLI/Plugin_Check_Command.php:148-155 | with errors ignored, no file is shown with errors; with warnings ignored, no file is shown with warnings and only files with errors are shown |
| CliCommand.ShownFiles | includes/CLI/Plugin_Check_Command.php:148-176 | for a consistent result, each file is shown at most once, and exactly when it has findings of a severity that is not ignored |
| CliCommand.ShowResults | includes/CLI/Plugin_Check_Command.php:147-176 | the files are shown in `Reports` order, each with its rows sorted and exactly that file's rows |
| CliCommand.ShowErrorFiles | includes/CLI/Plugin_Check_Command.php:162-170 | the first loop shows each file with errors together with its warnings, and the warnings still to show are those of the other files |
| CliCommand.ShowErrorFile | includes/CLI/Plugin_Check_Command.php:163-169 | one pass of the first loop: the file's warnings are taken out, if set, and shown with its errors |
| CliCommand.ShowWarningFiles | includes/CLI/Plugin_Check_Command.php:173-176 | the second loop shows each remaining file with its warnings only, after the files already shown |
| CliCommand.Requested | includes/Checker/Checks.php:116-171 | what the command gets from its instance is a consistent result or the error that stopped the run |
| CliCommand.RequestedCheck | includes/CLI/Plugin_Check_Command.php:123-129 | a single check is asked for exactly when `--check` is given and not empty |
| CliCommand.PluginCheckCommand.constructor | includes/CLI/Plugin_Check_Command.php:58-70 | unless told to skip it, the constructor runs the early preparation; a preparation is hooked exactly when the command line asks for it |
| CliCommand.PluginCheckCommand.GetChecksInstance | includes/CLI/Plugin_Check_Command.php:407-418 | the cached instance is reused exactly when it is for the same basename; otherwise a new, unprepared instance replaces it |
| CliCommand.PluginCheckCommand.PrepareForCommands | includes/CLI/Plugin_Check_Command.php:349-397 | a preparation is hooked exactly when there are four command line words, the second is the group, the third is `check-plugin` and the fourth resolves to an installed plugin; otherwise nothing changes |
| CliCommand.PluginCheckCommand.RunRequested | includes/CLI/Plugin_Check_Command.php:123-136 | `run_single_check` with the `--check` value when given and not empty, `run_all_checks` otherwise |
| CliCommand.PluginCheckCommand.CheckPlugin | includes/CLI/Plugin_Check_Command.php:114-177 | a bad plugin argument gives its error; otherwise the instance is fetched, reused or new; a failed run gives "Checking plugin … failed with critical error: …"; a successful one shows the result's files in `Reports` order, without the ignored severities |

## Left out

- Terminal output is not modelled: `WP_CLI::line`, `WP_CLI::error` and `Formatter::display_items`. `display_file_results` is modelled only as the list of (file, rows) pairs it would print. An error ends the command, and the model returns it as `Err`.
- Hook timing is not modelled: the `plugins_loaded` and `shutdown` actions in `prepare_for_commands`. The model records which instances have their `prepare` hooked (`scheduled`). `Checks.Prepare` and `Checks.Cleanup` model what those actions run.
- Host internals are left out: `wp_get_theme`, `get_raw_theme_root` and `wp_cache_flush`.
- RequestCheck.GoToEffects: the `WP_Query` and `WP` objects are identities only. Their properties are not modelled, so copying `public_query_vars` and `private_query_vars` onto the new `WP` is not either: the variables to unset are given in a `Rebuild` value. The taxonomy and post-type query variables `add_query_var` registers (Abstract_Request_Check.php:203-213) and `WP::main` are not modelled. The query string handed to `main` is returned.
- Exceptions: a scripted throw stands for a PHP `Exception`, the kind every `catch ( Exception $e )` in the engine catches. PHP `Error`s (a `TypeError`, a call to an undefined method) pass those catches and end the request; the model never raises one, except in CodeSnifferCheck.PhpCodeSnifferCheck.RunAsWritten.
- RequestCheck.AbstractRequestCheck.Run: `run_for_url` is abstract. Its effect on the host and whether it throws are the `forUrl` parameter. The messages it adds to the result are not modelled here; the orchestrator's scripted `Check` values stand for them.
- Checker.PrepareThenCleanup: the host is restored only when the themes root exists as given or does not exist at all. A root that exists only under `WP_CONTENT_DIR` is registered with that prefix, and the cleanup does not remove it (MinimalTheme.UseMinimalThemePreparation.CleanupKeepsContentDirRegistration).
- `include_once` of the plugin file and of the sniffer autoloader is not modelled, because it loads code. `file_exists` is a set of existing paths.
- The sniffer run, output buffering and `json_decode` are not modelled, because they are a third-party tool. The run is a parameter: either it threw, or it printed a report whose `files` array is given or missing.
- The check context and plugin context are not modelled. Basenames, the plugin path and the themes root are given strings.
- `get_checks`, including its `wp_plugin_check_checks` filter (Checks.php:213-225), is not modelled: the list of checks is an input. `Enqueued_Scripts_Check` is not part of this model. As written, `new Checks\PHP_CodeSniffer_Check()` inside namespace `WordPress\Plugin_Check\Checker` (Checks.php:8, 214) names `WordPress\Plugin_Check\Checker\Checks\PHP_CodeSniffer_Check`, while PHP_CodeSniffer_Check.php:8-17 declares the class one namespace up. Unless a file outside this model defines the former, `get_checks` ends in a class-not-found Error; the model's input list stands for the list that was evidently intended.
- plugin-check.php (bootstrap, version checks, admin notices) and includes/Plugin_Main.php (command registration) are not part of this model.
- Check.php and Preparation.php are bare interfaces. A check is a `Check` value whose behaviour is scripted.
- Key casting is not modelled: PHP turns numeric-string array keys into integers. File keys stay strings, and line and column keys are integers.
- CliCommand.SortByPosition: `usort` is not stable, so the order of rows at the same position is unspecified. The model sorts by insertion (stable), and the contract states only sortedness and permutation.
- CliCommand.CheckName: a `--check` value is a string, or `true` for a bare flag (passed as "1"). These are the two kinds WP-CLI passes. Other value kinds are excluded by `CheckArgTyped`.
- CheckResults.CheckResult.AddMessage: the arguments must satisfy `WellTypedArgs` (distinct keys; file a string; line and column integers when given). These are the documented argument types.
- RequestCheck: `parse_url` is a function to a record of scheme, path and query. `parse_str` is a function from the query string to a map.

## Findings

| source | as written | input that shows it | evidently intended | confidence | as-written member | corrected member |
|---|---|---|---|---|---|---|
| includes/Checker/Check_Result.php:81-96 | `add_message` builds `$data` (message plus documented arguments with defaults) but never uses it. It reads the position straight from `$args` and stores `$args` without line and column. | `add_message(true, "Bad", ['code'=>'c','file'=>'f','line'=>1,'column'=>2])` stores `['code'=>'c','file'=>'f']`, without the message text | the position and the stored record come from `$data`: message, code and file are stored, and missing arguments take their defaults | high (not executed) | CheckResults.StoredRecordAsWrittenDropsMessage | CheckResults.StoredRecordFields |
| includes/Checker/Checks.php:157 | `array_search( $check, $checks, true )` searches a class-name string among check objects, and a strict comparison of a string with an object is always false | `run_single_check('PHP_CodeSniffer_Check')` throws "Invalid check class name" even though that check is present | find the first check whose class name is the given one: the parameter is documented as `@param string $check Check class name` (Checks.php:141). The command's own example `--check=escaping` (Plugin_Check_Command.php:104) passes a slug, which the corrected lookup also refuses: how a slug maps to a class is not in the code | high (not executed) | Checker.FindCheckAsWrittenNeverFinds | Checker.FindCheck |
| includes/CLI/Plugin_Check_Command.php:149-153 | the ignore flags are read under `ignore_errors` and `ignore_warnings`, but WP-CLI stores `--ignore-errors` and `--ignore-warnings` under their hyphenated names | `--ignore-errors` leaves every error shown and "type" among the fields | read the keys the documented flags fill | medium (not executed) | CliCommand.IgnoreFlagsAsWrittenHaveNoEffect | CliCommand.DefaultFields |
| includes/Checker/PHP_CodeSniffer_Check.php:29-38 | `run` calls `$result->context()` (line 30) and `$result->plugin()` (line 38), but `Check_Result` defines neither: its public methods are `add_message` and the four getters | any call of `run`: PHP raises "Call to undefined method WordPress\\Plugin_Check\\Checker\\Check_Result::context()" at line 30, an `Error` that no `catch ( Exception $e )` stops | the plugin path comes from the check's context, as the sniffer's second argument | high (not executed) | CodeSnifferCheck.PhpCodeSnifferCheck.RunAsWritten | CodeSnifferCheck.PhpCodeSnifferCheck.Run |
