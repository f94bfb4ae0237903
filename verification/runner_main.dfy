/**
 * The helpers of the command-line runner: a DAG id made unique against the
 * DAG runs already recorded, the log level read from configuration, the
 * workflow results read back from the cleanup task's log, the choice of the
 * temporary and output folders, and the `strict` and `owner` defaults.
 *
 * The database, the configuration, the current directory and `os.path`'s
 * `abspath`/`normpath` are parameters.
 */
module RunnerMain {
  import opened Wrappers
  import Strings
  import Paths
  import Json
  import CwlDag

  // ---------------------------------------------------------------------------
  // gen_dag_id: a DAG id no recorded run has
  // ---------------------------------------------------------------------------

  /** `dag_id + '_' + str(n)`. */
  function Suffixed(base: string, n: nat): string
  {
    base + "_" + Strings.NatToString(n)
  }

  /** Different numbers give different suffixed ids. */
  lemma SuffixedInjective(base: string, m: nat, n: nat)
    requires Suffixed(base, m) == Suffixed(base, n)
    ensures m == n
  {
    var k := |base| + 1;
    assert Strings.NatToString(m) == Suffixed(base, m)[k..];
    assert Strings.NatToString(n) == Suffixed(base, n)[k..];
    Strings.NatToStringInjective(m, n);
  }

  function Pow10(k: nat): (r: nat)
    ensures r >= 1
  {
    if k == 0 then 1 else 10 * Pow10(k - 1)
  }

  /** A number of at least `10^k` has more than `k` digits. */
  lemma {:induction false} DigitsGrow(n: nat, k: nat)
    ensures n >= Pow10(k) ==> |Strings.NatToString(n)| > k
  {
    if k > 0 && n >= Pow10(k) {
      DigitsGrow(n / 10, k - 1);
    }
  }

  /** The length of the longest id. */
  function MaxLen(ids: seq<string>): (r: nat)
    ensures forall i :: 0 <= i < |ids| ==> |ids[i]| <= r
  {
    if |ids| == 0 then 0
    else
      var rest := MaxLen(ids[1..]);
      assert forall i :: 1 <= i < |ids| ==> ids[i] == ids[1..][i - 1];
      if |ids[0]| > rest then |ids[0]| else rest
  }

  /** `gen_dag_id` of the runner: the DAG id of the job (as the scheduler names it),
   *  or, when a run with that id is recorded, that id with the smallest suffix
   *  `_1`, `_2`, ... that no recorded run has. `existing` holds the recorded ids. */
  method GenDagId(workflowPath: string, jobPath: string, uid: Option<string>, isoCtime: string, existing: seq<string>)
    returns (r: string)
    ensures r !in existing
    ensures var base := CwlDag.GenDagId(workflowPath, jobPath, uid, isoCtime);
      (base !in existing ==> r == base)
      && (base in existing ==> exists n: nat :: (n >= 1 && r == Suffixed(base, n)
            && forall m: nat :: 1 <= m < n ==> Suffixed(base, m) in existing))
  {
    var base := CwlDag.GenDagId(workflowPath, jobPath, uid, isoCtime);
    if base !in existing {
      return base;
    }
    var sufix: nat := 1;
    var bound := MaxLen(existing);
    while Suffixed(base, sufix) in existing
      invariant sufix >= 1
      invariant forall m: nat :: 1 <= m < sufix ==> Suffixed(base, m) in existing
      decreases Pow10(bound) - sufix
    {
      var i :| 0 <= i < |existing| && existing[i] == Suffixed(base, sufix);
      DigitsGrow(sufix, bound);
      sufix := sufix + 1;
    }
    r := Suffixed(base, sufix);
  }

  // ---------------------------------------------------------------------------
  // eval_log_level
  // ---------------------------------------------------------------------------

  /** `eval_log_level`: the numeric level of a level name, 20 (INFO) for any name
   *  the table does not hold. */
  function EvalLogLevel(key: string): (r: int)
    ensures r in {0, 10, 20, 30, 40, 50}
  {
    if key == "CRITICAL" then 50
    else if key == "ERROR" then 40
    else if key == "WARNING" then 30
    else if key == "INFO" then 20
    else if key == "DEBUG" then 10
    else if key == "NOTSET" then 0
    else 20
  }

  /** The name `logging` gives each numeric level. */
  function LevelName(level: int): (r: Option<string>)
    ensures r.Some? <==> level in {0, 10, 20, 30, 40, 50}
  {
    if level == 50 then Some("CRITICAL")
    else if level == 40 then Some("ERROR")
    else if level == 30 then Some("WARNING")
    else if level == 20 then Some("INFO")
    else if level == 10 then Some("DEBUG")
    else if level == 0 then Some("NOTSET")
    else None
  }

  /** The table is a bijection between the six names and the six levels: every
   *  level's name maps back to it, and every known name is its level's name. */
  lemma LogLevelRoundTrip(level: int, key: string)
    ensures LevelName(level).Some? ==> EvalLogLevel(LevelName(level).value) == level
    ensures key in {"CRITICAL", "ERROR", "WARNING", "INFO", "DEBUG", "NOTSET"} ==>
      LevelName(EvalLogLevel(key)) == Some(key)
    ensures key !in {"CRITICAL", "ERROR", "WARNING", "INFO", "DEBUG", "NOTSET"} ==> EvalLogLevel(key) == 20
  {
  }

  /** The level the loggers are set to: the configured `LOG_LEVEL`, upper-cased. */
  function ConfiguredLogLevel(conf: string): (r: int)
    ensures r in {0, 10, 20, 30, 40, 50}
  {
    EvalLogLevel(Strings.ToUpper(conf))
  }

  /** The configured level does not depend on the case of the value. */
  lemma ConfiguredLogLevelIgnoresCase(conf: string)
    ensures ConfiguredLogLevel(Strings.ToLower(conf)) == ConfiguredLogLevel(conf)
  {
    Strings.CaseOfCase(conf);
  }

  // ---------------------------------------------------------------------------
  // print_workflow_output
  // ---------------------------------------------------------------------------

  /** The state of the scan: whether the results marker was seen, and the text
   *  collected since the last marker. */
  datatype ScanState = ScanState(found: bool, results: string)

  predicate Counted(line: string)
  {
    Strings.Contains(line, "Subtask:")
  }

  predicate Marker(line: string)
  {
    Counted(line) && Strings.Contains(line, "WORKFLOW RESULTS")
  }

  /** One line of the log: lines without `Subtask:` are skipped, a marker line
   *  starts the results afresh, and after a marker every other line adds its text
   *  after `Subtask: `; None where `split(...)[1]` raises `IndexError`. */
  function ScanLine(st: ScanState, line: string): (r: Option<ScanState>)
    ensures !Counted(line) ==> r == Some(st)
    ensures Marker(line) ==> r == Some(ScanState(true, ""))
    ensures Counted(line) && !Marker(line) && !st.found ==> r == Some(st)
    ensures Counted(line) && !Marker(line) && st.found ==>
      (r.Some? <==> Strings.Contains(line, "Subtask: "))
    ensures Counted(line) && !Marker(line) && st.found && r.Some? ==>
      r.value.results == st.results + Strings.SecondPiece(line, "Subtask: ").value
    ensures r.Some? ==> r.value.found == (st.found || Marker(line))
    ensures r.Some? && !Marker(line) ==> st.results <= r.value.results
  {
    if !Counted(line) then Some(st)
    else if Strings.Contains(line, "WORKFLOW RESULTS") then Some(ScanState(true, ""))
    else if st.found then
      match Strings.SecondPiece(line, "Subtask: ")
      case None => None
      case Some(piece) => Some(st.(results := st.results + piece))
    else Some(st)
  }

  /** The scan of a whole log from state `st`. */
  function Scan(st: ScanState, lines: seq<string>): Option<ScanState>
    decreases |lines|
  {
    if |lines| == 0 then Some(st)
    else
      match ScanLine(st, lines[0])
      case None => None
      case Some(next) => Scan(next, lines[1..])
  }

  /** The workflow results printed for a log: the collected text without its
   *  trailing newlines. */
  function WorkflowOutputOf(lines: seq<string>): Option<string>
  {
    match Scan(ScanState(false, ""), lines)
    case None => None
    case Some(st) => Some(Strings.RStrip(st.results, '\n'))
  }

  /** `print_workflow_output`'s loop over the log lines. */
  method WorkflowOutput(lines: seq<string>) returns (r: Option<string>)
    ensures r == WorkflowOutputOf(lines)
  {
    var found := false;
    var results := "";
    var i := 0;
    while i < |lines|
      invariant 0 <= i <= |lines|
      invariant Scan(ScanState(false, ""), lines) == Scan(ScanState(found, results), lines[i..])
    {
      assert lines[i..][1..] == lines[i + 1..];
      var line := lines[i];
      if !Strings.Contains(line, "Subtask:") {
        i := i + 1;
        continue;
      }
      if Strings.Contains(line, "WORKFLOW RESULTS") {
        found := true;
        results := "";
        i := i + 1;
        continue;
      }
      if found {
        var piece := Strings.SecondPiece(line, "Subtask: ");
        if piece.None? {
          return None;
        }
        results := results + piece.value;
      }
      i := i + 1;
    }
    r := Some(Strings.RStrip(results, '\n'));
  }

  /** Scanning two pieces of a log one after the other is scanning the whole. */
  lemma {:induction false} ScanAppend(st: ScanState, a: seq<string>, b: seq<string>)
    ensures Scan(st, a + b) == (match Scan(st, a) case None => None case Some(mid) => Scan(mid, b))
    decreases |a|
  {
    if |a| == 0 {
      assert a + b == b;
    } else {
      assert (a + b)[0] == a[0];
      assert (a + b)[1..] == a[1..] + b;
      var next := ScanLine(st, a[0]);
      if next.Some? {
        ScanAppend(next.value, a[1..], b);
      }
    }
  }

  /** Without a marker line nothing is collected: the output is empty. */
  lemma {:induction false} NoMarkerNoOutput(lines: seq<string>)
    requires forall i :: 0 <= i < |lines| ==> !Marker(lines[i])
    ensures Scan(ScanState(false, ""), lines) == Some(ScanState(false, ""))
    ensures WorkflowOutputOf(lines) == Some("")
  {
    if |lines| > 0 {
      NoMarkerNoOutput(lines[1..]);
    }
  }

  /** A marker line forgets everything collected before it: the output depends
   *  only on the lines after the last marker. */
  lemma MarkerResets(before: seq<string>, marker: string, after: seq<string>)
    requires Marker(marker)
    requires Scan(ScanState(false, ""), before).Some?
    ensures WorkflowOutputOf(before + [marker] + after) ==
      (match Scan(ScanState(true, ""), after)
       case None => None
       case Some(st) => Some(Strings.RStrip(st.results, '\n')))
  {
    ScanAppend(ScanState(false, ""), before + [marker], after);
    ScanAppend(ScanState(false, ""), before, [marker]);
  }

  // ---------------------------------------------------------------------------
  // get_tmp_folder and get_output_folder
  // ---------------------------------------------------------------------------

  /** Python truthiness of an optional string argument. */
  predicate Given(v: Option<string>)
  {
    v.Some? && v.value != ""
  }

  /** `get_tmp_folder`: the command line's folder made absolute; otherwise the
   *  job's `tmp_folder`, else the configured one, else the fresh `mkdtemp`
   *  folder, kept when absolute and otherwise resolved against the job file's
   *  directory. */
  function GetTmpFolder(cliTmp: Option<string>, jobTmp: Option<string>, confTmp: Option<string>, mkdtemp: string,
                        jobPath: string, abspath: string -> string, normpath: string -> string): (r: string)
    ensures Given(cliTmp) ==> r == abspath(cliTmp.value)
    ensures !Given(cliTmp) && jobTmp.Some? && Paths.IsAbs(jobTmp.value) ==> r == jobTmp.value
    ensures !Given(cliTmp) && jobTmp.Some? && !Paths.IsAbs(jobTmp.value) ==>
              r == normpath(Paths.Join(Paths.Dirname(jobPath), jobTmp.value))
    ensures !Given(cliTmp) && jobTmp.None? && confTmp.Some? && Paths.IsAbs(confTmp.value) ==> r == confTmp.value
    ensures !Given(cliTmp) && jobTmp.None? && confTmp.Some? && !Paths.IsAbs(confTmp.value) ==>
              r == normpath(Paths.Join(Paths.Dirname(jobPath), confTmp.value))
    ensures !Given(cliTmp) && jobTmp.None? && confTmp.None? && Paths.IsAbs(mkdtemp) ==> r == mkdtemp
    ensures !Given(cliTmp) && jobTmp.None? && confTmp.None? && !Paths.IsAbs(mkdtemp) ==>
              r == normpath(Paths.Join(Paths.Dirname(jobPath), mkdtemp))
  {
    if Given(cliTmp) then abspath(cliTmp.value)
    else
      var tmp := if jobTmp.Some? then jobTmp.value else if confTmp.Some? then confTmp.value else mkdtemp;
      if Paths.IsAbs(tmp) then tmp else normpath(Paths.Join(Paths.Dirname(jobPath), tmp))
  }

  /** `get_output_folder`: the command line's `outdir` made absolute; otherwise
   *  the job's `output_folder`, else `OUTPUT_FOLDER/dag_id` when
   *  `ignore_def_outdir` is set and the current directory when it is not, kept
   *  when absolute and otherwise resolved against the job file's directory. */
  function GetOutputFolder(cliOutdir: Option<string>, ignoreDefOutdir: bool, jobOutput: Option<string>,
                           confOutput: Option<string>, cwd: string, dagId: string, jobPath: string,
                           abspath: string -> string, normpath: string -> string): (r: string)
    ensures Given(cliOutdir) ==> r == abspath(cliOutdir.value)
    ensures !Given(cliOutdir) && jobOutput.Some? && Paths.IsAbs(jobOutput.value) ==> r == jobOutput.value
    ensures !Given(cliOutdir) && jobOutput.Some? && !Paths.IsAbs(jobOutput.value) ==>
              r == normpath(Paths.Join(abspath(Paths.Dirname(jobPath)), jobOutput.value))
    ensures !Given(cliOutdir) && jobOutput.None? && ignoreDefOutdir ==>
              var d := Paths.Join(if confOutput.Some? then confOutput.value else cwd, dagId);
              r == if Paths.IsAbs(d) then d else normpath(Paths.Join(abspath(Paths.Dirname(jobPath)), d))
    ensures !Given(cliOutdir) && jobOutput.None? && !ignoreDefOutdir && Paths.IsAbs(abspath(cwd)) ==> r == abspath(cwd)
    ensures !Given(cliOutdir) && jobOutput.None? && !ignoreDefOutdir && !Paths.IsAbs(abspath(cwd)) ==>
              r == normpath(Paths.Join(abspath(Paths.Dirname(jobPath)), abspath(cwd)))
  {
    if Given(cliOutdir) then abspath(cliOutdir.value)
    else
      var default := if ignoreDefOutdir
        then Paths.Join(if confOutput.Some? then confOutput.value else cwd, dagId)
        else abspath(cwd);
      var out := if jobOutput.Some? then jobOutput.value else default;
      if Paths.IsAbs(out) then out else normpath(Paths.Join(abspath(Paths.Dirname(jobPath)), out))
  }

  /** `abspath` returns absolute paths and `normpath` keeps them absolute. */
  ghost predicate SanePathFunctions(abspath: string -> string, normpath: string -> string)
  {
    (forall p :: Paths.IsAbs(abspath(p))) && (forall p :: Paths.IsAbs(p) ==> Paths.IsAbs(normpath(p)))
  }

  /** Both folders the runner creates are absolute paths, for the absolute job
   *  path the runner passes in. */
  lemma FoldersAreAbsolute(cliTmp: Option<string>, jobTmp: Option<string>, confTmp: Option<string>, mkdtemp: string,
                           cliOutdir: Option<string>, ignoreDefOutdir: bool, jobOutput: Option<string>,
                           confOutput: Option<string>, cwd: string, dagId: string, jobPath: string,
                           abspath: string -> string, normpath: string -> string)
    requires SanePathFunctions(abspath, normpath)
    requires Paths.IsAbs(jobPath)
    ensures Paths.IsAbs(GetTmpFolder(cliTmp, jobTmp, confTmp, mkdtemp, jobPath, abspath, normpath))
    ensures Paths.IsAbs(GetOutputFolder(cliOutdir, ignoreDefOutdir, jobOutput, confOutput, cwd, dagId, jobPath, abspath, normpath))
  {
    Paths.DirnameKeepsAbs(jobPath);
    var tmp := if jobTmp.Some? then jobTmp.value else if confTmp.Some? then confTmp.value else mkdtemp;
    Paths.JoinKeepsAbs(Paths.Dirname(jobPath), tmp);
    var out := if jobOutput.Some? then jobOutput.value
      else if ignoreDefOutdir then Paths.Join(if confOutput.Some? then confOutput.value else cwd, dagId)
      else abspath(cwd);
    Paths.JoinKeepsAbs(abspath(Paths.Dirname(jobPath)), out);
  }

  /** With `ignore_def_outdir`, no folder given and an absolute `OUTPUT_FOLDER`, the
   *  output goes to a folder named after the DAG directly inside `OUTPUT_FOLDER`. */
  lemma DefaultOutdirPerDag(ignoreDefOutdir: bool, confOutput: Option<string>, cwd: string, dagId: string,
                            jobPath: string, abspath: string -> string, normpath: string -> string)
    requires ignoreDefOutdir && confOutput.Some? && Paths.IsAbs(confOutput.value)
    requires confOutput.value[|confOutput.value| - 1] != '/' && '/' !in dagId
    ensures var r := GetOutputFolder(None, ignoreDefOutdir, None, confOutput, cwd, dagId, jobPath, abspath, normpath);
      Paths.Dirname(r) == confOutput.value && Paths.Basename(r) == dagId
  {
    Paths.JoinKeepsAbs(confOutput.value, dagId);
    Paths.JoinedNameSitsInDir(confOutput.value, dagId);
  }

  // ---------------------------------------------------------------------------
  // Defaults of the DAG arguments
  // ---------------------------------------------------------------------------

  /** `strict`: the configured STRICT value, lower-cased, is one of the accepted
   *  spellings of true. */
  predicate Strict(conf: string)
  {
    Strings.ToLower(conf) in ["true", "1", "t", "y", "yes"]
  }

  /** Strictness does not depend on case, and the default "False" is not strict. */
  lemma StrictIgnoresCase(conf: string)
    ensures Strict(Strings.ToLower(conf)) == Strict(conf)
    ensures Strict(Strings.ToUpper(conf)) == Strict(conf)
  {
    Strings.LowerIdempotent(conf);
    Strings.CaseOfCase(conf);
  }

  /** The default STRICT value "False" is not strict. */
  lemma DefaultNotStrict()
    ensures !Strict("False")
  {
    assert Strings.ToLower("False") == "false";
  }

  /** `owner`: the job's `author`, "biowardrobe" when it has none. */
  function Owner(author: Option<Json.Json>): (r: Json.Json)
    ensures author.Some? ==> r == author.value
    ensures author.None? ==> r == Json.JStr("biowardrobe")
  {
    if author.Some? then author.value else Json.JStr("biowardrobe")
  }
}
