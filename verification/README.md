# CWL runner for Airflow: a Dafny model

This project models the core of the CWL runner that Barski-lab added to
Apache Airflow. The runner executes Common Workflow Language workflows as
Airflow DAGs. Each workflow step becomes one operator. At run time the
operator:

1. merges the promise stores handed on by its upstream steps;
2. synthesises a one-step workflow around its step;
3. runs it through an external CWL interpreter;
4. publishes the outputs it produced.

A file-based job queue feeds the DAGs. Job files sit in `new`, `running`,
`fail` and `success` folders under each job root. A sweep promotes the oldest
waiting jobs under a concurrency cap. Jobs whose workflow template cannot be
found, or whose DAG cannot be built, are routed to `fail`. A command-line
runner names DAG runs, reads back the workflow results, and chooses the
output and temporary folders.

The project has one module per file:

| module | what it models |
|---|---|
| `Wrappers` | `Option` and `Result` |
| `Strings` | Python `str` operations on one-character separators: `split`, `join`, `split(...)[-1]`, `replace`, ASCII `lower`/`upper`, `rstrip`, `find`, `str(n)` |
| `Paths` | the `posixpath` functions `basename`, `dirname`, `join`, `splitext` and `isabs` |
| `Json` | JSON values, Python truthiness, and the deep merge of promise stores |
| `CwlUtils` | `shortname`, `flatten` (a loop proved against a recursive definition), and `url_shortname` over Python 2.7's `urlparse` |
| `CwlStepOperator` | the step operator: input and output synthesis, the custom step copy, pruning of unprovided inputs, the one-step workflow document, publishing, and the `StepOperator` class whose `Execute` updates `outdir` |
| `CwlDag` | the scheduler's DAG file: DAG naming, template lookup, the folder structure scan, and the `JobQueue` class whose methods move job files between folders |
| `RunnerMain` | the command-line helpers: unique DAG ids, log levels, the workflow-output scan, folder precedence, and the `strict` and `owner` defaults |

Several effects are parameters, so every operation is a function of its
inputs:

- **Filesystem:** the queue is a map from each job file to its folder and
  creation time, and a move changes the folder in that map. The folder
  listings (`get_only_files`) see only names that do not start with '.', as
  the `<folder>/*` glob does; such hidden files are never counted, promoted or
  routed. Subdirectories of a folder are not in the map.
- **`os.walk`:** the walk is a sequence of (directory, subdirectories)
  pairs.
- **Existence checks:** the paths that exist are a set.
- **Interpreter:** the CWL interpreter is a function from the synthesised
  workflow and job object to an (output, status) pair.
- **Database:** the recorded DAG run ids are a sequence.
- **Configuration:** configuration values, the current directory and the
  `mkdtemp` result are arguments.
- **`abspath` and `normpath`:** these are function arguments.

## Model

| member | source | states |
|---|---|---|
| CwlUtils.Shortname | airflow/cwl_runner/cwlutils.py:9-11 | the shortname holds no '#', and an identifier without '#' is its own shortname |
| CwlUtils.ShortnameIdempotent | airflow/cwl_runner/cwlutils.py:9-11 | taking the shortname twice is taking it once |
| CwlUtils.Flat | airflow/cwl_runner/cwlutils.py:13-18 | the flattened list holds no nested list |
| CwlUtils.Flatten | airflow/cwl_runner/cwlutils.py:13-18 | the extend/append loop, with its recursive call, returns exactly the leaves of the input in left-to-right order |
| CwlUtils.FlatAppend | airflow/cwl_runner/cwlutils.py:13-18 | flattening distributes over concatenation, so order is kept |
| CwlUtils.FlatOfFlat | airflow/cwl_runner/cwlutils.py:13-18 | a list without nested lists comes back unchanged |
| CwlUtils.FlatIdempotent | airflow/cwl_runner/cwlutils.py:13-18 | flattening twice is flattening once |
| CwlUtils.FlatLength | airflow/cwl_runner/cwlutils.py:13-18 | the result's length is the number of non-list leaves |
| CwlUtils.LeafOfElement | airflow/cwl_runner/cwlutils.py:13-18 | every leaf of every element appears in the result |
| CwlUtils.LeafHasElement | airflow/cwl_runner/cwlutils.py:13-18 | every element of the result is a leaf of some input element |
| CwlUtils.AfterFirst | airflow/cwl_runner/cwlutils.py:20-25 | the input is the text before the first separator, the separator, and the result |
| CwlUtils.SplitOnce | airflow/cwl_runner/cwlutils.py:20-25 | `split(c, 1)` gives the first segment and the rest, or the whole text and "" |
| CwlUtils.NetlocEnd | airflow/cwl_runner/cwlutils.py:20-25 | the network location ends at the first '/', '?' or '#', or at the end |
| CwlUtils.SplitScheme | airflow/cwl_runner/cwlutils.py:20-25 | the text after the scheme is a suffix of the URL, and no '#' lies before it |
| CwlUtils.SplitNetloc | airflow/cwl_runner/cwlutils.py:20-25 | the text after the network location is a suffix, and no '#' lies before it |
| CwlUtils.AfterNetloc | airflow/cwl_runner/cwlutils.py:21 | the text after the scheme and the network location is a suffix of the URL |
| CwlUtils.SplitParamsInLastSegment | airflow/cwl_runner/cwlutils.py:21 | `_splitparams` splits the path at the first ';' of its last '/'-segment, so the path is the part before, ';', and the parameters; without a ';' in that segment the path is left whole |
| CwlUtils.UrlParse | airflow/cwl_runner/cwlutils.py:21 | `urlparse` fails exactly when `urlsplit` does, and differs from it only in the path and the parameters |
| CwlUtils.PlainUrlSplit | airflow/cwl_runner/cwlutils.py:21 | a URL without '#' or '?' has an empty fragment and query, and its path is everything after the scheme and network location |
| CwlUtils.PlainUrlParts | airflow/cwl_runner/cwlutils.py:21 | with no ';' either, `urlparse` keeps that path and the empty fragment |
| CwlUtils.UrlShortname | airflow/cwl_runner/cwlutils.py:20-25 | a successful result holds no '/' |
| CwlUtils.AfterFirstSkipsPrefix | airflow/cwl_runner/cwlutils.py:20-25 | a prefix without the separator changes neither whether it occurs nor the text after its first occurrence |
| CwlUtils.FragmentOfSuffix | airflow/cwl_runner/cwlutils.py:20-25 | dropping a '#'-free prefix leaves the fragment unchanged |
| CwlUtils.FragmentAfterFirstHash | airflow/cwl_runner/cwlutils.py:20-25 | `urlparse`'s fragment is the text after the first '#', whatever the scheme and network location |
| CwlUtils.UrlShortnameOfFragment | airflow/cwl_runner/cwlutils.py:22-23 | with a non-empty fragment, the result is its last '/'-segment; without a second '#' it equals the last segment of `shortname` |
| CwlUtils.UrlShortnameOfPath | airflow/cwl_runner/cwlutils.py:24-25 | without a fragment, query or parameters, the result is the last '/'-segment of the path after the network location, and when that path holds a '/' it is the text after the last '/' of the whole URL |
| Json.Merge | airflow/cwl_runner/cwlstepoperator.py:69 | a non-object head replaces the base; an object head gives an object |
| Json.MergeFields | airflow/cwl_runner/cwlstepoperator.py:69 | the merged store has the keys of both sides; a key on one side keeps its value, and a key on both sides gets the recursive merge |
| Json.MergeDisjoint | airflow/cwl_runner/cwlstepoperator.py:66-69 | on disjoint keys the merge is the map union and does not depend on order |
| Json.MergeOverwrites | airflow/cwl_runner/cwlstepoperator.py:66-69 | a later non-object value for a key replaces the earlier one |
| Json.MergeKeepsKeys | airflow/cwl_runner/cwlstepoperator.py:66-69 | merging never drops a key |
| Json.MergeIdempotent | airflow/cwl_runner/cwlstepoperator.py:69 | merging a value with itself changes nothing |
| Json.MergeEmpty | airflow/cwl_runner/cwlstepoperator.py:66-69 | the empty store the loop starts from is neutral on both sides |
| Json.MergeExampleDisjoint | airflow/cwl_runner/cwlstepoperator.py:69 | `{a:1}` merged with `{b:2}` is `{a:1, b:2}` |
| Json.MergeExampleOverwrite | airflow/cwl_runner/cwlstepoperator.py:69 | `{a:1}` merged with `{a:2}` is `{a:2}` |
| Json.MergeExampleNested | airflow/cwl_runner/cwlstepoperator.py:69 | `{a:{x:1}}` merged with `{a:{y:2}}` is `{a:{x:1, y:2}}` |
| CwlStepOperator.LocalName | airflow/cwl_runner/cwlstepoperator.py:43 | a step-local name holds neither '#' nor '/' |
| CwlStepOperator.Shortnames | airflow/cwl_runner/cwlstepoperator.py:134 | the shortname of each identifier, in order |
| CwlStepOperator.FlatSources | airflow/cwl_runner/cwlstepoperator.py:163 | flattening the `source` fields of the `in` entries gives exactly their source identifiers, in order |
| CwlStepOperator.Distinct | airflow/cwl_runner/cwlstepoperator.py:163 | `list(set(xs))` has the same members as `xs` and no duplicates |
| CwlStepOperator.TypeIndex | airflow/cwl_runner/cwlstepoperator.py:120-125 | there is no index iff no embedded-tool input has the local name; otherwise the index is the last such input, because the dict comprehension keeps the last duplicate |
| CwlStepOperator.TypeById | airflow/cwl_runner/cwlstepoperator.py:120-125 | KeyError (None) iff no embedded-tool input has the local name; otherwise the type of the last input with that name |
| CwlStepOperator.IdBySource | airflow/cwl_runner/cwlstepoperator.py:128-139 | the search fails only with KeyError for a missing `source` or with no consumer found |
| CwlStepOperator.IdBySourceFirst | airflow/cwl_runner/cwlstepoperator.py:128-139 | the search stops at the first entry that lacks `source` (KeyError) or consumes the target (its local name); it finds no consumer iff every entry has a `source` and none consumes the target |
| CwlStepOperator.InputFor | airflow/cwl_runner/cwlstepoperator.py:152-166 | the input for a source exists iff a consuming `in` entry and its tool type are found; it is named by the shortname and typed `["null", "Any", T]` |
| CwlStepOperator.Collect | airflow/cwl_runner/cwlstepoperator.py:153-165 | a comprehension that may raise succeeds iff every element succeeds, with every value in order; otherwise it fails with the error of some element |
| CwlStepOperator.InputsOf | airflow/cwl_runner/cwlstepoperator.py:153-165 | one input per source in order, succeeding iff every lookup does |
| CwlStepOperator.GetInputs | airflow/cwl_runner/cwlstepoperator.py:152-166 | succeeds iff every source identifier resolves, giving one well-typed input per distinct source |
| CwlStepOperator.ConsumerExists | airflow/cwl_runner/cwlstepoperator.py:128-139 | every source identifier has a consuming entry, so the lookup can fail only on an earlier entry without `source` |
| CwlStepOperator.SourceOwner | airflow/cwl_runner/cwlstepoperator.py:163 | every flattened source identifier comes from the `source` of some `in` entry |
| CwlStepOperator.SharedSourceDeclaredOnce | airflow/cwl_runner/cwlstepoperator.py:162-164 | in the two-entry scenario where both `in` entries name the same source, the synthesised workflow has a single input for it |
| CwlStepOperator.GetOutputs | airflow/cwl_runner/cwlstepoperator.py:169-170 | one output per `out` entry, in order, named by its local name, bound to its shortname and typed `Any` |
| CwlStepOperator.KeepTruthy | airflow/cwl_runner/cwlstepoperator.py:186-190 | an optional field is copied iff it is present and truthy, and then unchanged |
| CwlStepOperator.KeepNonEmpty | airflow/cwl_runner/cwlstepoperator.py:197-199 | an optional string is copied iff it is present and non-empty |
| CwlStepOperator.ShortSource | airflow/cwl_runner/cwlstepoperator.py:194-196 | the source keeps its list-or-single shape, with every identifier shortnamed |
| CwlStepOperator.LocalScatter | airflow/cwl_runner/cwlstepoperator.py:182-185 | the scatter keeps its shape, with every identifier cut to its local name |
| CwlStepOperator.CopyStepInput | airflow/cwl_runner/cwlstepoperator.py:192-200 | the copy has the local id and the shortnamed source, and each optional field is present iff the original's is truthy, with its value unchanged |
| CwlStepOperator.CustomStep | airflow/cwl_runner/cwlstepoperator.py:176-201 | the new step record: shortname id, same `run`, copied `in`, local `out`, local scatter, and the truthy optional fields |
| CwlStepOperator.FindStep | airflow/cwl_runner/cwlstepoperator.py:174 | the first workflow step with the step's shortname, or none iff no step has it |
| CwlStepOperator.GetCustomStep | airflow/cwl_runner/cwlstepoperator.py:173-202 | IndexError iff no workflow step matches; otherwise the appended `in` list is the entry-wise copy and the record is `CustomStep` of the match |
| CwlStepOperator.RemoveFirst | airflow/cwl_runner/cwlstepoperator.py:149 | `list.remove` shortens the list by one and removes one occurrence from its multiset |
| CwlStepOperator.PruneFrom | airflow/cwl_runner/cwlstepoperator.py:143-149 | the loop from a given position never lengthens the list or adds an entry, and leaves it unchanged when every entry from there on is provided (`valueFrom`, `default`, a list `source`, or a single `source` present in the job, lines 144-146) |
| CwlStepOperator.Pruned | airflow/cwl_runner/cwlstepoperator.py:142-149 | pruning never lengthens the list or adds an entry, and leaves a list of provided entries unchanged |
| CwlStepOperator.SubseqRefl | airflow/cwl_runner/cwlstepoperator.py:142-149 | a list is a subsequence of itself |
| CwlStepOperator.SubseqTail | airflow/cwl_runner/cwlstepoperator.py:142-149 | dropping the head of a subsequence keeps it a subsequence |
| CwlStepOperator.SubseqCons | airflow/cwl_runner/cwlstepoperator.py:142-149 | a subsequence of the tail is a subsequence of the list |
| CwlStepOperator.SubseqTrans | airflow/cwl_runner/cwlstepoperator.py:142-149 | being a subsequence is transitive |
| CwlStepOperator.RemoveFirstSubseq | airflow/cwl_runner/cwlstepoperator.py:149 | removing an element keeps the order of the rest |
| CwlStepOperator.RemoveFirstKeepsProvided | airflow/cwl_runner/cwlstepoperator.py:149 | removing an unprovided entry keeps every provided one |
| CwlStepOperator.PruneFromSound | airflow/cwl_runner/cwlstepoperator.py:143-149 | from any loop position, the pruning keeps order and every provided entry |
| CwlStepOperator.SubseqMultiset | airflow/cwl_runner/cwlstepoperator.py:142-149 | a subsequence takes no element more often than the list holds it |
| CwlStepOperator.ProvidedCount | airflow/cwl_runner/cwlstepoperator.py:144-146 | a provided entry occurs among the provided entries as often as in the list |
| CwlStepOperator.PrunedSound | airflow/cwl_runner/cwlstepoperator.py:142-149 | the pruned list is an order-preserving subsequence; it keeps every provided entry, and everything removed was unprovided |
| CwlStepOperator.PruneSkipsNeighbour | airflow/cwl_runner/cwlstepoperator.py:143-149 | of two adjacent unprovided entries only the first is removed, because the loop skips the element after a removal |
| CwlStepOperator.FalsyDefaultIsPruned | airflow/cwl_runner/cwlstepoperator.py:198 | a `default: 0` is not copied, so an entry relying on it alone is pruned |
| CwlStepOperator.PruneInputs | airflow/cwl_runner/cwlstepoperator.py:142-149 | the remove-while-iterating loop gives `Pruned`, and so keeps order and every provided entry, and removes only unprovided ones |
| CwlStepOperator.SubWorkflowBeside | airflow/cwl_runner/cwlstepoperator.py:222-224 | the one-step workflow file lies in the workflow file's directory, named `<name>_workflow_<step><ext>` |
| CwlStepOperator.StepToWorkflow | airflow/cwl_runner/cwlstepoperator.py:205-227 | succeeds iff the inputs resolve and the step is found; the document has version (default `v1.0`), class, the synthesised inputs and outputs, exactly one step (the custom copy of the first matching workflow step with its `in` list pruned against the job), and the truthy namespaces, schemas and requirements; it is written to the derived path beside the workflow file |
| CwlStepOperator.Published | airflow/cwl_runner/cwlstepoperator.py:248-255 | a key is published iff it is a declared output whose last segment the interpreter produced, and then with that value; nothing is set to null |
| CwlStepOperator.Publish | airflow/cwl_runner/cwlstepoperator.py:248-255 | the publishing loop computes `Published` |
| CwlStepOperator.PublishedPerOutput | airflow/cwl_runner/cwlstepoperator.py:249-255 | each declared output is published exactly when produced |
| CwlStepOperator.PublishReadsSynthesizedOutputs | airflow/cwl_runner/cwlstepoperator.py:248-255 | every published key is the `outputSource` of a synthesised workflow output |
| CwlStepOperator.FoldPromisesKeys | airflow/cwl_runner/cwlstepoperator.py:66-69 | the merged store's keys are exactly the keys some upstream published |
| CwlStepOperator.LastOutdirIsLast | airflow/cwl_runner/cwlstepoperator.py:67-71 | `outdir` is the value of the last upstream record that has the key, even an empty one; with none it is unchanged |
| CwlStepOperator.NullOutdirAfterRealOne | airflow/cwl_runner/cwlstepoperator.py:70-74 | `/run1/out` followed by a null `outdir` leaves it null, so the step fails |
| CwlStepOperator.RunStep | airflow/cwl_runner/cwlstepoperator.py:73-264 | a falsy `outdir` is an error; success requires synthesis and a run that is not an empty `permanentFail`; the result carries the same `outdir` and exactly the promises `Published` gives for the interpreter's output on the synthesised workflow |
| CwlStepOperator.StepOperator.constructor | airflow/cwl_runner/cwlstepoperator.py:32-45 | the operator keeps its step and starts without an `outdir` |
| CwlStepOperator.StepOperator.CollectUpstream | airflow/cwl_runner/cwlstepoperator.py:66-71 | the loop folds the upstream stores with `merge` and sets `outdir` from the last record that has one |
| CwlStepOperator.StepOperator.Execute | airflow/cwl_runner/cwlstepoperator.py:53-264 | `execute` is the upstream fold followed by `RunStep` on the merged store and the new `outdir` |
| CwlDag.FolderName | airflow/cwl_runner/cwl_dag/cwl_dag.py:156-159 | folder names are non-empty and hold no '/' |
| CwlDag.MoveCounts | airflow/cwl_runner/cwl_dag/cwl_dag.py:182 | a move takes the file out of one folder and into another; no file is created or lost and other folders are untouched |
| CwlDag.MoveDestinationIsSibling | airflow/cwl_runner/cwl_dag/cwl_dag.py:182 | dropping the last two path segments and appending a folder gives the sibling folder of the same job root, where the file keeps its name (also lines 135 and 189) |
| CwlDag.FileNameIsBasename | airflow/cwl_runner/cwl_dag/cwl_dag.py:142 | a job file's base name is its name, so its key does not depend on its folder |
| CwlDag.GenUid | airflow/cwl_runner/cwl_dag/cwl_dag.py:45-48 | the job's `uid` if present, else the base name before its last '.', which is "" without a '.' (the same as main.py lines 79-82) |
| CwlDag.GenDagId | airflow/cwl_runner/cwl_dag/cwl_dag.py:51-53 | the workflow stem, '-', the uid, '-', and the ISO time with `replace(':', '-')` applied, so no ':' is left and every other character is kept |
| CwlDag.JobKey | airflow/cwl_runner/cwl_dag/cwl_dag.py:142 | the job's base name up to its last '-' ("" without one) |
| CwlDag.EarliestMatch | airflow/cwl_runner/cwl_dag/cwl_dag.py:144-147 | there is no match iff no template is named `key.cwl`; otherwise the match has the least ctime and is the first of the equally early |
| CwlDag.FindWorkflow | airflow/cwl_runner/cwl_dag/cwl_dag.py:140-149 | ValueError iff no template is named after the key; otherwise the path of a matching template with the earliest ctime |
| CwlDag.Records | airflow/cwl_runner/cwl_dag/cwl_dag.py:152-164 | a record is built only from a walked directory that holds `new` |
| CwlDag.RecordsComplete | airflow/cwl_runner/cwl_dag/cwl_dag.py:152-164 | every walked directory that holds `new` contributes the record of its four folders |
| CwlDag.RecordsCount | airflow/cwl_runner/cwl_dag/cwl_dag.py:152-164 | there are exactly as many records as walked directories holding `new` |
| CwlDag.JobsFolderStructure | airflow/cwl_runner/cwl_dag/cwl_dag.py:152-164 | succeeds iff all four folders of every job root exist, returning the records in walk order; otherwise the ValueError names a missing folder of the first record, in walk order, that lacks one |
| CwlDag.FirstMissingRecord | airflow/cwl_runner/cwl_dag/cwl_dag.py:152-164 | when the scan reaches a directory holding `new` with every earlier record complete, that directory's record is the next one |
| CwlDag.AdmitCount | airflow/cwl_runner/cwl_dag/cwl_dag.py:178-179 | the sweep promotes at most the waiting files; below the cap, running becomes `min(max, running + new)`; otherwise none moves |
| CwlDag.OldestExists | airflow/cwl_runner/cwl_dag/cwl_dag.py:180 | while some file waits, an oldest waiting file exists |
| CwlDag.PromoteOldest | airflow/cwl_runner/cwl_dag/cwl_dag.py:179-182 | promoting the oldest waiting file preserves the promotion invariant: promoted files are distinct, oldest first, and no younger than any file still waiting |
| CwlDag.JobQueue.AdmissionSweep | airflow/cwl_runner/cwl_dag/cwl_dag.py:174-182 | exactly `min(max − running, new)` files move from new to running, or none when the guard fails; they are the oldest, in order; no file is created or lost; fail is untouched |
| CwlDag.Routed | airflow/cwl_runner/cwl_dag/cwl_dag.py:185-189 | the queue after routing: the same files, the failed ones in `fail` with their creation time, every other entry unchanged |
| CwlDag.RouteOne | airflow/cwl_runner/cwl_dag/cwl_dag.py:185-189 | routing one more running file to fail is one more move of that file |
| CwlDag.JobQueue.RouteFailures | airflow/cwl_runner/cwl_dag/cwl_dag.py:185-189 | a running file moves to fail iff no template exists for it or building its DAG raises ValueError; every other file stays; nothing leaves fail |
| CwlDag.JobQueue.FailCallback | airflow/cwl_runner/cwl_dag/cwl_dag.py:36-42 | succeeds iff exactly one running file starts with the DAG id's prefix before '_', and moves exactly that file to fail; otherwise an error and no change |
| RunnerMain.SuffixedInjective | airflow/cwl_runner/main.py:92-94 | different counters give different suffixed ids |
| RunnerMain.GenDagId | airflow/cwl_runner/main.py:85-94 | the result is never a recorded id: the base id if free, else `base_n` for the smallest free n ≥ 1 |
| RunnerMain.EvalLogLevel | airflow/cwl_runner/main.py:97-106 | the level is one of 0, 10, …, 50 (the same table as cwl_dag.py lines 25-34) |
| RunnerMain.LevelName | airflow/cwl_runner/main.py:98-105 | exactly the six table levels have a name |
| RunnerMain.LogLevelRoundTrip | airflow/cwl_runner/main.py:97-106 | name and level round-trip for the six names, and any other name gives 20 |
| RunnerMain.ConfiguredLogLevel | airflow/cwl_runner/main.py:112 | the configured level, upper-cased first, is a table level |
| RunnerMain.ConfiguredLogLevelIgnoresCase | airflow/cwl_runner/main.py:112 | the level does not depend on the case of the configured value |
| RunnerMain.ScanLine | airflow/cwl_runner/main.py:131-137 | lines without `Subtask:` are skipped; a marker resets to found-and-empty; before a marker other lines change nothing; after one, a line appends exactly its `split('Subtask: ')[1]` piece, or raises IndexError iff `Subtask: ` does not occur |
| RunnerMain.WorkflowOutput | airflow/cwl_runner/main.py:127-139 | the loop over the log lines computes the scan's result with trailing newlines stripped |
| RunnerMain.ScanAppend | airflow/cwl_runner/main.py:130-137 | scanning two parts of a log in turn is scanning the whole |
| RunnerMain.NoMarkerNoOutput | airflow/cwl_runner/main.py:127-139 | without a `WORKFLOW RESULTS` line the output is empty |
| RunnerMain.MarkerResets | airflow/cwl_runner/main.py:133-136 | the output depends only on the lines after the last marker |
| RunnerMain.GetTmpFolder | airflow/cwl_runner/main.py:172-177 | the CLI folder made absolute wins; otherwise the job's value, else the configured one, else the `mkdtemp` folder is kept when absolute and otherwise becomes `normpath(join(dirname(job), value))` |
| RunnerMain.GetOutputFolder | airflow/cwl_runner/main.py:180-189 | the CLI `outdir` made absolute wins; otherwise the job's value, else `join(OUTPUT_FOLDER or cwd, dag_id)` with `ignore_def_outdir` and `abspath(cwd)` without it, is kept when absolute and otherwise becomes `normpath(join(abspath(dirname(job)), value))` |
| RunnerMain.DefaultOutdirPerDag | airflow/cwl_runner/main.py:182-183 | with `ignore_def_outdir` and an absolute `OUTPUT_FOLDER`, the output folder is named after the DAG id, directly inside `OUTPUT_FOLDER` |
| RunnerMain.FoldersAreAbsolute | airflow/cwl_runner/main.py:192-202 | for the absolute job path `make_dag` passes, both folders are absolute paths |
| RunnerMain.StrictIgnoresCase | airflow/cwl_runner/main.py:244 | `strict` does not depend on the case of the configured value |
| RunnerMain.DefaultNotStrict | airflow/cwl_runner/main.py:244 | the default value "False" is not strict |
| RunnerMain.Owner | airflow/cwl_runner/main.py:212 | the job's `author`, "biowardrobe" without one (the same as cwl_dag.py line 77) |
| Strings.Split | airflow/cwl_runner/cwl_dag/cwl_dag.py:135 | `split` never gives an empty list; no piece holds the separator; there are several pieces iff the separator occurs |
| Strings.JoinSplit | airflow/cwl_runner/cwl_dag/cwl_dag.py:135 | joining the pieces of a split with the same separator gives the input back |
| Strings.SplitAround | airflow/cwl_runner/cwl_dag/cwl_dag.py:135 | splitting `a + sep + b` gives the pieces of `a` followed by the pieces of `b` |
| Strings.LastIsSplitLast | airflow/cwl_runner/cwl_dag/cwl_dag.py:48 | `LastSegment` is `split(sep)[-1]` and `DropLastSegment` is `sep.join(split(sep)[0:-1])` |
| Strings.LastSegmentSuffix | airflow/cwl_runner/cwlutils.py:11 | the last segment is a suffix of the input, preceded by the separator when there is one |
| Strings.DropLastSegment | airflow/cwl_runner/cwl_dag/cwl_dag.py:48 | the input is the result, the separator and the last segment; the result is "" without a separator |
| Strings.FirstSegment | airflow/cwl_runner/cwl_dag/cwl_dag.py:37 | `split(sep)[0]` is a separator-free prefix, followed by the separator when there is one, and the whole input when there is none |
| Strings.FirstIsSplitFirst | airflow/cwl_runner/cwl_dag/cwl_dag.py:37 | `FirstSegment` is the first piece of `split(sep)` |
| Strings.ReplaceChar | airflow/cwl_runner/cwl_dag/cwl_dag.py:53 | `replace(':', '-')` changes exactly the ':' characters |
| Strings.SecondPiece | airflow/cwl_runner/main.py:137 | `split(pat)[1]` exists iff `pat` occurs; it starts right after the first occurrence and runs to the next occurrence or the end |
| Strings.RStrip | airflow/cwl_runner/main.py:139 | `rstrip('\n')` gives a prefix that does not end in '\n', and removes only '\n' characters |
| Strings.ParseNatToString | airflow/cwl_runner/main.py:92-94 | reading back `str(n)` gives `n` |
| Strings.CaseOfCase | airflow/cwl_runner/main.py:112 | upper-casing ignores an earlier lower-casing, and the other way round |
| Strings.MapChars | airflow/cwl_runner/main.py:112 | the mapped string has the same length, with the function applied at every position |
| Strings.ToLower | airflow/cwl_runner/main.py:244 | `lower()` leaves no upper-case ASCII letter and keeps every other character |
| Strings.ToUpper | airflow/cwl_runner/main.py:112 | `upper()` leaves no lower-case ASCII letter and keeps every other character |
| Paths.Dirname | airflow/cwl_runner/cwlstepoperator.py:222 | `dirname` is "", all slashes, or does not end in '/' |
| Paths.SplitExt | airflow/cwl_runner/cwlstepoperator.py:223 | `splitext` splits the name into two parts that concatenate back to it; the extension is empty or a single '.'-led segment, and it is non-empty iff some '.' follows a character other than '.' |
| Paths.JoinedNameSitsInDir | airflow/cwl_runner/cwlstepoperator.py:224 | `dirname` and `basename` of a name joined onto a directory give the two parts back |
| Paths.DirnameKeepsAbs | airflow/cwl_runner/main.py:175 | the directory of an absolute path is absolute |

## Left out

- The CWL interpreter itself (`load_tool`, `single_job_executor`, the tool resolver) is a function parameter of `CwlStepOperator.StepOperator.Execute`.
- Airflow's machinery is not modelled: `BaseOperator`, `xcom_pull`/`xcom_push`, `backfill`, `CWLDAG`, `JobDispatcher`, `JobCleanup`, and DAG registration through `globals()`. The upstream records are an input sequence.
- `jsonmerge` is not part of this model. `Json.Merge` merges objects recursively and lets the later value win for everything else, arrays included. The array rule is an assumption, because the library's collision rule for arrays is not visible here.
- Filesystem effects are not modelled:
  - `shutil.move` only changes a file's folder in the queue map. A name clash at the destination, where `shutil.move` would raise, is not modelled.
  - `os.makedirs`, `chmod`, and the JSON file written by `step_to_workflow` at cwlstepoperator.py lines 225-226 are left out.
  - `glob`, `os.walk` and `getctime` become inputs.
  - `tempfile.mkdtemp` is a string argument. It is evaluated eagerly as a default value even when unused, and that side effect is not modelled.
- The DAG runs recorded in the database are passed in as a sequence of ids. The `LIKE dag_id%` filter at main.py line 87 is left out. Every candidate id `dag_id`, `dag_id_1`, … starts with `dag_id`, so it passes that filter, and the filter does not change the result.
- Configuration reads (`conf.get`, `conf_get_default`), `get_max_jobs_to_run` and its `sys.exit` are left out. The configured values are arguments.
- `fail_callback` reads the undefined globals `folder_running` and `folder_fail`. The model takes the job root as a parameter and moves the file into that root's `fail` folder.
- `CwlDag.JobQueue.FailCallback` models `glob`'s `uid*` pattern as a prefix match that skips hidden names when the uid is empty. Glob metacharacters inside a uid are not modelled.
- `os.path.normpath`, `os.path.abspath` and `datetime.isoformat` are parameters, or inputs supplied as strings.
- Logging, prints, stdout suppression, the `run_param.tmp` backup files and argparse are left out.
- Concurrent admission sweeps are left out. The code does not serialise them, and the model covers a single sweep.
- The commented-out job-object builder at cwlstepoperator.py lines 87-110 is not modelled.
- `CwlDag.JobQueue.AdmissionSweep`: Python's `min` returns the first of several equally old files in listing order. The model picks any one of them, because the folder listing order is not known.
- `CwlDag.JobQueue.RouteFailures`: building a DAG (`make_dag`) can raise `ValueError` for reasons other than a missing template. Those are an input set, `dagFails`.
- `CwlDag.JobQueue.RouteFailures` catches only `ValueError`. Any other exception from `make_dag` or `find_workflow` (a `yaml.YAMLError`, an `IOError`/`OSError`, a CWL validation error) aborts the loop in the source, so the later running files are not routed in that sweep. The model treats every build as either succeeding or raising `ValueError`, and routes every running file.
- `CwlStepOperator.RunStep`: `tempfile.mkdtemp(prefix=join(outdir, "task_tmp"))` at cwlstepoperator.py line 117 raises when a truthy `outdir` is not a string or names a missing folder. The model does not create the folder, so it lets both cases succeed.
- `Json`: JSON values have no floating-point case. Job values and interpreter outputs that are floats are not modelled.
- `CwlStepOperator.Distinct`: `list(set(...))` has no defined order in Python. The model keeps first occurrences.
- `CwlUtils.UrlShortname`: the model follows Python 2.7's `urlsplit` rules for scheme, network location, query and fragment. Its result cache and the difference between unicode and byte strings are not modelled.
- `RunnerMain.GetOutputFolder`: with `ignore_def_outdir`, the source computes the DAG id by calling `gen_dag_id`, which queries the database. The model takes the id as a parameter.
- Job fields read from YAML (`uid`, `tmp_folder`, `output_folder`) are modelled as optional strings. Non-string values are not modelled. `author` is a JSON value.

## Notes on behaviour

In these places the code does something other than what one would first expect. The model follows the code.

- **Output folder:** one might expect `outdir` to come from the first non-empty upstream value. The code takes it from the last upstream record that has the key, even when that value is empty. `CwlStepOperator.LastOutdirIsLast` and `CwlStepOperator.NullOutdirAfterRealOne` state this.
- **Several matching templates:** more than one matching workflow template is not an error. `find_workflow` picks the one with the earliest creation time instead (`CwlDag.FindWorkflow`).
- **Duplicate input names:** an ambiguous type lookup is not an error. The dictionary comprehension in `get_type_dy_id` keeps the last input with a given local name (`CwlStepOperator.TypeIndex`).
- **Pruning:** the removal of unprovided step inputs mutates the list while iterating over it. It therefore skips the entry after each removal, and some unprovided entries survive (`CwlStepOperator.PruneSkipsNeighbour`).
