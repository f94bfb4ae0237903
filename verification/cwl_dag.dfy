/**
 * The scheduler's DAG file: the job queue kept as files in `new`, `running`,
 * `fail` and `success` folders under each job root, the naming of DAGs, the
 * lookup of a job's workflow template, the admission sweep that promotes the
 * oldest new jobs under a concurrency cap, and the routing of failed jobs.
 *
 * The filesystem is a map from each job file to its folder and creation time;
 * `shutil.move` is a change of folder in that map.
 */
module CwlDag {
  import opened Wrappers
  import Strings
  import Paths

  // ---------------------------------------------------------------------------
  // Folders and the queue state
  // ---------------------------------------------------------------------------

  /** The folder a job file sits in is its state. */
  datatype Folder = New | Running | Fail | Success

  function FolderName(f: Folder): (r: string)
    ensures r != "" && '/' !in r
  {
    match f
    case New => "new"
    case Running => "running"
    case Fail => "fail"
    case Success => "success"
  }

  /** A job file: the job root holding the four folders, and the file's name. */
  datatype FileKey = FileKey(root: string, name: string)

  /** Where a job file is and when it was created (`os.path.getctime`). */
  datatype Entry = Entry(folder: Folder, ctime: int)

  type Queue = map<FileKey, Entry>

  /** A name the folder glob lists: the glob skips names that start with a dot. */
  predicate Visible(name: string)
  {
    name != "" && name[0] != '.'
  }

  /** The files currently in folder `f` of any job root that `get_only_files` lists. */
  function FilesIn(q: Queue, f: Folder): set<FileKey>
  {
    set k | k in q && q[k].folder == f && Visible(k.name)
  }

  /** `shutil.move` of one job file into folder `f` of its own job root. */
  function Move(q: Queue, k: FileKey, f: Folder): Queue
    requires k in q
  {
    q[k := q[k].(folder := f)]
  }

  /** Moving a file takes it out of one folder and puts it into another; no file
   *  is created or lost and every other folder keeps its files. */
  lemma MoveCounts(q: Queue, k: FileKey, to: Folder)
    requires k in q && q[k].folder != to && Visible(k.name)
    ensures Move(q, k, to).Keys == q.Keys
    ensures FilesIn(Move(q, k, to), q[k].folder) == FilesIn(q, q[k].folder) - {k}
    ensures FilesIn(Move(q, k, to), to) == FilesIn(q, to) + {k}
    ensures |FilesIn(Move(q, k, to), q[k].folder)| == |FilesIn(q, q[k].folder)| - 1
    ensures |FilesIn(Move(q, k, to), to)| == |FilesIn(q, to)| + 1
    ensures forall g :: g != to && g != q[k].folder ==> FilesIn(Move(q, k, to), g) == FilesIn(q, g)
  {
    var m := Move(q, k, to);
    var from := q[k].folder;
    assert FilesIn(m, from) == FilesIn(q, from) - {k};
    assert FilesIn(m, to) == FilesIn(q, to) + {k};
    assert k in FilesIn(q, from) && k !in FilesIn(q, to);
    forall g | g != to && g != from
      ensures FilesIn(m, g) == FilesIn(q, g)
    {
    }
  }

  // ---------------------------------------------------------------------------
  // Paths of job files and move destinations
  // ---------------------------------------------------------------------------

  /** `os.path.join(job_rec[folder], name)`: the path of a job file in a folder. */
  function FilePath(k: FileKey, f: Folder): string
  {
    Paths.Join(Paths.Join(k.root, FolderName(f)), k.name)
  }

  /** `os.path.join('/'.join(path.split('/')[0:-2]), folder)`: the destination
   *  the queue moves a file at `path` to. */
  function MoveDestination(path: string, f: Folder): string
  {
    var parts := Strings.Split(path, '/');
    var keep := if |parts| >= 2 then |parts| - 2 else 0;
    Paths.Join(Strings.Join(parts[..keep], '/'), FolderName(f))
  }

  /** Dropping the last two segments of a job file's path and appending a folder
   *  name gives the sibling folder of the same job root, and the file then sits
   *  at its own path in that folder. */
  lemma MoveDestinationIsSibling(k: FileKey, from: Folder, to: Folder)
    requires k.root != "" && k.root[|k.root| - 1] != '/'
    requires '/' !in k.name
    ensures FilePath(k, from) == k.root + "/" + FolderName(from) + "/" + k.name
    ensures MoveDestination(FilePath(k, from), to) == k.root + "/" + FolderName(to)
    ensures Paths.Join(MoveDestination(FilePath(k, from), to), k.name) == FilePath(k, to)
  {
    var g := FolderName(from);
    assert FilePath(k, from) == k.root + ['/'] + g + ['/'] + k.name;
    SplitTwoMore(k.root, g, k.name);
    Strings.JoinSplit(k.root, '/');
    JoinDroppingTwo(Strings.Split(FilePath(k, from), '/'), Strings.Split(k.root, '/'), g, k.name, k.root);
  }

  /** Joining all but the last two pieces of `a/g/n` gives `a` back. */
  lemma JoinDroppingTwo(parts: seq<string>, rootParts: seq<string>, g: string, n: string, a: string)
    requires parts == rootParts + [g] + [n] && Strings.Join(rootParts, '/') == a
    ensures |parts| >= 2 && Strings.Join(parts[..|parts| - 2], '/') == a
  {
    assert parts[..|parts| - 2] == rootParts;
  }

  /** Splitting `a/g/n` splits `a` and adds `g` and `n` as two more pieces. */
  lemma SplitTwoMore(a: string, g: string, n: string)
    requires '/' !in g && '/' !in n
    ensures Strings.Split(a + ['/'] + g + ['/'] + n, '/') == Strings.Split(a, '/') + [g] + [n]
  {
    Strings.SplitAround(a + ['/'] + g, n, '/');
    Strings.SplitAround(a, g, '/');
    Strings.SplitOfSeparatorFree(n, '/');
    Strings.SplitOfSeparatorFree(g, '/');
  }

  /** The base name of a job file's path is its name, whichever folder it is in;
   *  so `find_workflow`'s key does not depend on the folder. */
  lemma FileNameIsBasename(k: FileKey, f: Folder)
    requires '/' !in k.name
    ensures Paths.Basename(FilePath(k, f)) == k.name
    ensures JobKey(FilePath(k, f)) == JobKey(k.name)
  {
    var g := FolderName(f);
    var d := Paths.Join(k.root, g);
    assert d[|d| - 1] == g[|g| - 1];
    Paths.JoinedNameSitsInDir(d, k.name);
    assert Paths.Basename(k.name) == k.name;
  }

  // ---------------------------------------------------------------------------
  // Naming
  // ---------------------------------------------------------------------------

  /** `gen_uid`: the job's `uid` when it has one, otherwise the job file's base
   *  name without its last `.`-extension ("" when the base name has no '.'). */
  function GenUid(jobPath: string, uid: Option<string>): (r: string)
    ensures uid.Some? ==> r == uid.value
    ensures uid.None? && '.' !in Paths.Basename(jobPath) ==> r == ""
    ensures uid.None? && '.' in Paths.Basename(jobPath) ==>
      Paths.Basename(jobPath) == r + "." + Strings.LastSegment(Paths.Basename(jobPath), '.')
  {
    if uid.Some? then uid.value else Strings.DropLastSegment(Paths.Basename(jobPath), '.')
  }

  /** `gen_dag_id`: the workflow's base name without its last extension, the
   *  job's uid and the job's creation time in ISO form with every ':' made a '-',
   *  joined by '-'. */
  function GenDagId(workflowPath: string, jobPath: string, uid: Option<string>, isoCtime: string): (r: string)
    ensures var stem := Strings.DropLastSegment(Paths.Basename(workflowPath), '.');
      var id := GenUid(jobPath, uid);
      |r| == |stem| + |id| + |isoCtime| + 2
      && r[..|stem|] == stem && r[|stem|] == '-'
      && r[|stem| + 1..|stem| + 1 + |id|] == id && r[|stem| + 1 + |id|] == '-'
      && r[|r| - |isoCtime|..] == Strings.ReplaceChar(isoCtime, ':', '-')
  {
    var stem := Strings.DropLastSegment(Paths.Basename(workflowPath), '.');
    var id := GenUid(jobPath, uid);
    var time := Strings.ReplaceChar(isoCtime, ':', '-');
    var r := stem + "-" + id + "-" + time;
    assert r[|r| - |isoCtime|..] == time;
    r
  }

  // ---------------------------------------------------------------------------
  // find_workflow
  // ---------------------------------------------------------------------------

  /** A workflow file found under the templates folder. */
  datatype Template = Template(dir: string, name: string, ctime: int)

  /** The job's key: its base name up to the last '-'. */
  function JobKey(jobPath: string): (r: string)
    ensures '-' in Paths.Basename(jobPath) ==>
      Paths.Basename(jobPath) == r + "-" + Strings.LastSegment(Paths.Basename(jobPath), '-')
    ensures '-' !in Paths.Basename(jobPath) ==> r == ""
  {
    Strings.DropLastSegment(Paths.Basename(jobPath), '-')
  }

  predicate Matches(t: Template, key: string)
  {
    t.name == key + ".cwl"
  }

  /** Some template is named after `key`. */
  predicate HasTemplate(key: string, ts: seq<Template>)
  {
    exists i :: 0 <= i < |ts| && Matches(ts[i], key)
  }

  /** The index of the earliest matching template; among equally early ones the
   *  first in walk order, as Python's `min` keeps the first minimum. */
  function EarliestMatch(ts: seq<Template>, key: string): (r: Option<nat>)
    ensures r.None? <==> forall i :: 0 <= i < |ts| ==> !Matches(ts[i], key)
    ensures r.Some? ==> r.value < |ts| && Matches(ts[r.value], key)
    ensures r.Some? ==> forall i :: 0 <= i < |ts| && Matches(ts[i], key) ==> ts[r.value].ctime <= ts[i].ctime
    ensures r.Some? ==> forall i :: 0 <= i < r.value && Matches(ts[i], key) ==> ts[r.value].ctime < ts[i].ctime
  {
    if |ts| == 0 then None
    else
      var rest := EarliestMatch(ts[1..], key);
      assert forall i :: 1 <= i < |ts| ==> ts[i] == ts[1..][i - 1];
      if Matches(ts[0], key) && (rest.None? || ts[0].ctime <= ts[rest.value + 1].ctime) then Some(0)
      else if rest.None? then None
      else Some(rest.value + 1)
  }

  datatype DagError = NoTemplate | MissingFolder(path: string) | NotOneFailedFile(count: nat)

  /** `find_workflow`: the path of the earliest template named after the job's
   *  key; `ValueError` (here `NoTemplate`) when none is. */
  function FindWorkflow(jobPath: string, ts: seq<Template>): (r: Result<string, DagError>)
    ensures r.Err? <==> !HasTemplate(JobKey(jobPath), ts)
    ensures r.Ok? ==> exists i :: (0 <= i < |ts| && ts[i].name == JobKey(jobPath) + ".cwl"
      && r.value == Paths.Join(ts[i].dir, ts[i].name)
      && forall j :: 0 <= j < |ts| && ts[j].name == ts[i].name ==> ts[i].ctime <= ts[j].ctime)
  {
    match EarliestMatch(ts, JobKey(jobPath))
    case None => Err(NoTemplate)
    case Some(i) => Ok(Paths.Join(ts[i].dir, ts[i].name))
  }

  // ---------------------------------------------------------------------------
  // get_jobs_folder_structure
  // ---------------------------------------------------------------------------

  /** One directory visited by `os.walk`: its path and its subdirectory names. */
  datatype WalkEntry = WalkEntry(root: string, dirs: seq<string>)

  /** The four folder paths of one job root. */
  datatype JobFolders = JobFolders(newDir: string, running: string, fail: string, success: string)

  function FoldersOf(root: string): JobFolders
  {
    JobFolders(Paths.Join(root, "new"), Paths.Join(root, "running"),
               Paths.Join(root, "fail"), Paths.Join(root, "success"))
  }

  function FolderPaths(j: JobFolders): seq<string>
  {
    [j.newDir, j.running, j.fail, j.success]
  }

  predicate AllExist(j: JobFolders, existing: set<string>)
  {
    forall p :: p in FolderPaths(j) ==> p in existing
  }

  /** The records of the walked directories that contain a `new` folder, in walk order. */
  function Records(walk: seq<WalkEntry>): (r: seq<JobFolders>)
    ensures |r| <= |walk|
    ensures forall j :: j in r ==> exists w :: w in walk && "new" in w.dirs && j == FoldersOf(w.root)
  {
    if |walk| == 0 then []
    else
      var w := walk[|walk| - 1];
      Records(walk[..|walk| - 1]) + (if "new" in w.dirs then [FoldersOf(w.root)] else [])
  }

  /** `get_jobs_folder_structure`: the records of every job root, or the first
   *  missing folder path (`ValueError`). */
  method JobsFolderStructure(walk: seq<WalkEntry>, existing: set<string>) returns (r: Result<seq<JobFolders>, DagError>)
    ensures r.Ok? <==> forall j :: j in Records(walk) ==> AllExist(j, existing)
    ensures r.Ok? ==> r.value == Records(walk)
    ensures r.Err? ==> (r.error.MissingFolder? && r.error.path !in existing
      && exists k :: 0 <= k < |Records(walk)| && r.error.path in FolderPaths(Records(walk)[k])
           && forall m :: 0 <= m < k ==> AllExist(Records(walk)[m], existing))
  {
    var jobs: seq<JobFolders> := [];
    var i := 0;
    while i < |walk|
      invariant 0 <= i <= |walk|
      invariant jobs == Records(walk[..i])
      invariant forall j :: j in jobs ==> AllExist(j, existing)
    {
      var w := walk[i];
      RecordsStep(walk, i);
      if "new" in w.dirs {
        var rec := FoldersOf(w.root);
        if !AllExist(rec, existing) {
          var missing :| missing in FolderPaths(rec) && missing !in existing;
          FirstMissingRecord(walk, i, existing);
          assert missing in FolderPaths(Records(walk)[|jobs|]);
          return Err(MissingFolder(missing));
        }
        jobs := jobs + [rec];
      }
      i := i + 1;
    }
    assert walk[..i] == walk;
    r := Ok(jobs);
  }

  /** The positions of the walk whose directory holds a `new` folder. */
  ghost function NewIndices(walk: seq<WalkEntry>): set<int>
  {
    set i | 0 <= i < |walk| && "new" in walk[i].dirs
  }

  /** Every walked directory with a `new` folder contributes its record. */
  lemma {:induction false} RecordsComplete(walk: seq<WalkEntry>)
    ensures forall i :: 0 <= i < |walk| && "new" in walk[i].dirs ==> FoldersOf(walk[i].root) in Records(walk)
  {
    if |walk| > 0 {
      var n := |walk| - 1;
      var front := walk[..n];
      RecordsComplete(front);
      RecordsStep(walk, n);
      assert walk[..n + 1] == walk;
      forall i | 0 <= i < |walk| && "new" in walk[i].dirs
        ensures FoldersOf(walk[i].root) in Records(walk)
      {
        if i < n {
          assert front[i] == walk[i];
        }
      }
    }
  }

  /** There is exactly one record per walked directory with a `new` folder. */
  lemma {:induction false} RecordsCount(walk: seq<WalkEntry>)
    ensures |Records(walk)| == |NewIndices(walk)|
  {
    if |walk| > 0 {
      var n := |walk| - 1;
      RecordsCount(walk[..n]);
      RecordsStep(walk, n);
      assert walk[..n + 1] == walk;
      NewIndicesStep(walk);
    }
  }

  /** The last walked directory adds its own position when it holds `new`. */
  lemma NewIndicesStep(walk: seq<WalkEntry>)
    requires |walk| > 0
    ensures var n := |walk| - 1;
      |NewIndices(walk)| == |NewIndices(walk[..n])| + (if "new" in walk[n].dirs then 1 else 0)
  {
    var n := |walk| - 1;
    var before := NewIndices(walk[..n]);
    NewIndicesDropLast(walk);
    if "new" in walk[n].dirs {
      assert NewIndices(walk) == before + {n};
    } else {
      assert NewIndices(walk) == before;
    }
  }

  /** Apart from the last position, the walk and its front have the same positions with `new`. */
  lemma NewIndicesDropLast(walk: seq<WalkEntry>)
    requires |walk| > 0
    ensures NewIndices(walk) - {|walk| - 1} == NewIndices(walk[..|walk| - 1])
    ensures |walk| - 1 !in NewIndices(walk[..|walk| - 1])
  {
    var n := |walk| - 1;
    var front := walk[..n];
    forall i | i in NewIndices(walk) - {n} ensures i in NewIndices(front) {
      assert front[i] == walk[i];
    }
    forall i | i in NewIndices(front) ensures i in NewIndices(walk) - {n} {
      assert front[i] == walk[i];
    }
  }

  /** When the scan reaches a directory with `new` and every earlier record is
   *  complete, that directory's record is the next one and all before it are complete. */
  lemma FirstMissingRecord(walk: seq<WalkEntry>, i: nat, existing: set<string>)
    requires i < |walk| && "new" in walk[i].dirs
    requires forall j :: j in Records(walk[..i]) ==> AllExist(j, existing)
    ensures var k := |Records(walk[..i])|;
      && k < |Records(walk)| && Records(walk)[k] == FoldersOf(walk[i].root)
      && forall m :: 0 <= m < k ==> AllExist(Records(walk)[m], existing)
  {
    var jobs := Records(walk[..i]);
    RecordsStep(walk, i);
    RecordsPrefix(walk, i + 1);
    var upTo := Records(walk[..i + 1]);
    assert upTo == jobs + [FoldersOf(walk[i].root)];
    assert upTo[|jobs|] == FoldersOf(walk[i].root);
    forall m | 0 <= m < |jobs| ensures AllExist(Records(walk)[m], existing) {
      assert Records(walk)[m] == upTo[m] == jobs[m];
    }
  }

  /** One more walked directory adds its record when it has a `new` folder. */
  lemma RecordsStep(walk: seq<WalkEntry>, i: nat)
    requires i < |walk|
    ensures Records(walk[..i + 1]) ==
      Records(walk[..i]) + (if "new" in walk[i].dirs then [FoldersOf(walk[i].root)] else [])
  {
    assert walk[..i + 1][..i] == walk[..i];
  }

  /** The records of a prefix of the walk are a prefix of its records. */
  lemma {:induction false} RecordsPrefix(walk: seq<WalkEntry>, n: nat)
    requires n <= |walk|
    ensures Records(walk[..n]) <= Records(walk)
  {
    if n < |walk| {
      RecordsPrefix(walk[..|walk| - 1], n);
      assert walk[..|walk| - 1][..n] == walk[..n];
    } else {
      assert walk[..n] == walk;
    }
  }

  // ---------------------------------------------------------------------------
  // Admission sweep and failure routing
  // ---------------------------------------------------------------------------

  function Min(a: int, b: int): int
  {
    if a <= b then a else b
  }

  /** How many new files one sweep promotes: never more than are waiting, enough
   *  to fill the running folders up to the cap or until nothing waits, and none
   *  when the cap is already reached or nothing waits. */
  function AdmitCount(maxJobs: int, running: nat, waiting: nat): (r: nat)
    ensures r <= waiting
    ensures running < maxJobs ==> running + r == Min(maxJobs, running + waiting)
    ensures running >= maxJobs || waiting == 0 ==> r == 0
  {
    if running < maxJobs && waiting > 0 then Min(maxJobs - running, waiting) else 0
  }

  /** `k` is a new file no younger than any other new file. */
  predicate IsOldestNew(q: Queue, k: FileKey)
  {
    k in FilesIn(q, New) && forall j :: j in FilesIn(q, New) ==> q[k].ctime <= q[j].ctime
  }

  /** Whenever some file is new, an oldest new file exists. */
  lemma OldestExists(q: Queue)
    requires FilesIn(q, New) != {}
    ensures exists k :: IsOldestNew(q, k)
  {
    var k := OldestOf(q, FilesIn(q, New));
    assert IsOldestNew(q, k);
  }

  /** A file of `s` with the least creation time. */
  lemma {:induction false} OldestOf(q: Queue, s: set<FileKey>) returns (k: FileKey)
    requires s != {} && s <= q.Keys
    ensures k in s && forall j :: j in s ==> q[k].ctime <= q[j].ctime
    decreases |s|
  {
    var x :| x in s;
    if s == {x} {
      k := x;
    } else {
      var y := OldestOf(q, s - {x});
      k := if q[x].ctime <= q[y].ctime then x else y;
    }
  }

  /** No file leaves `fail`. */
  predicate FailStays(before: Queue, after: Queue)
  {
    forall k :: k in before && before[k].folder == Fail ==> k in after && after[k].folder == Fail
  }

  /** A running file is routed to `fail` when `find_workflow` finds no template
   *  for it (`FindWorkflow` fails exactly then) or when building its DAG raises
   *  `ValueError` for another reason (`dagFails`). */
  predicate Unbuildable(k: FileKey, templates: seq<Template>, dagFails: set<FileKey>)
  {
    !HasTemplate(JobKey(FilePath(k, Running)), templates) || k in dagFails
  }

  /** The queue once the files in `failed` have moved to `fail`. */
  function Routed(q: Queue, failed: set<FileKey>): (r: Queue)
    ensures r.Keys == q.Keys
    ensures forall k :: k in r ==> r[k] == (if k in failed then q[k].(folder := Fail) else q[k])
  {
    map k | k in q :: if k in failed then q[k].(folder := Fail) else q[k]
  }

  /** Routing one more file is one more move. */
  lemma RouteOne(q: Queue, failed: set<FileKey>, fn: FileKey)
    requires fn in q && fn !in failed
    ensures Routed(q, failed + {fn}) == Move(Routed(q, failed), fn, Fail)
  {
    var a, b := Routed(q, failed + {fn}), Move(Routed(q, failed), fn, Fail);
    assert a.Keys == b.Keys;
    forall k | k in a
      ensures a[k] == b[k]
    {
    }
  }

  /** Moving one element from a worklist to the visited set keeps them a partition. */
  lemma TransferOne<T>(todo: set<T>, seen: set<T>, all: set<T>, x: T)
    requires todo + seen == all && todo !! seen && x in todo
    ensures (todo - {x}) + (seen + {x}) == all && (todo - {x}) !! (seen + {x})
  {
  }

  /** Routing never takes a file out of `fail`. */
  lemma RoutedFailStays(q: Queue, failed: set<FileKey>)
    ensures FailStays(q, Routed(q, failed))
  {
  }

  /** `uid*` matched by `glob` against a file name: a prefix match, where an empty
   *  uid does not match hidden names (a leading '.' is matched only explicitly). */
  predicate GlobPrefix(uid: string, name: string)
  {
    uid <= name && (uid != "" || name == "" || name[0] != '.')
  }

  /** The running files of job root `root` that `fail_callback` finds for `dagId`. */
  function CallbackMatches(q: Queue, dagId: string, root: string): set<FileKey>
  {
    set k | k in q && q[k].folder == Running && k.root == root
      && GlobPrefix(Strings.FirstSegment(dagId, '_'), k.name)
  }

  /** `promoted` lists, oldest first, files taken from `new` in `before` into
   *  `running` in `after`, each no younger than any file still new; nothing else
   *  about the queue differs. */
  predicate Promoted(before: Queue, after: Queue, promoted: seq<FileKey>)
  {
    after.Keys == before.Keys
    && (forall k :: k in after && k !in promoted ==> after[k] == before[k])
    && (forall k :: k in after ==> after[k].ctime == before[k].ctime)
    && (forall i :: 0 <= i < |promoted| ==>
          promoted[i] in before && before[promoted[i]].folder == New && after[promoted[i]].folder == Running)
    && (forall i, j :: 0 <= i < j < |promoted| ==> promoted[i] != promoted[j])
    && (forall i, j :: 0 <= i < j < |promoted| ==> after[promoted[i]].ctime <= after[promoted[j]].ctime)
    && (forall i, k :: 0 <= i < |promoted| && k in FilesIn(after, New) ==> after[promoted[i]].ctime <= after[k].ctime)
  }

  /** Promoting the oldest new file extends a promotion. */
  lemma PromoteOldest(before: Queue, cur: Queue, promoted: seq<FileKey>, oldest: FileKey)
    requires Promoted(before, cur, promoted)
    requires IsOldestNew(cur, oldest)
    ensures Promoted(before, Move(cur, oldest, Running), promoted + [oldest])
  {
    assert oldest !in promoted;
    PromoteKeepsOrigins(before, cur, promoted, oldest);
    PromoteKeepsOrder(before, cur, promoted, oldest);
  }

  /** After one more promotion every promoted file still came from `new`, sits in
   *  `running` and appears once. */
  lemma PromoteKeepsOrigins(before: Queue, cur: Queue, promoted: seq<FileKey>, oldest: FileKey)
    requires Promoted(before, cur, promoted)
    requires IsOldestNew(cur, oldest) && oldest !in promoted
    ensures var next, p := Move(cur, oldest, Running), promoted + [oldest];
      forall i :: 0 <= i < |p| ==> p[i] in before && before[p[i]].folder == New && next[p[i]].folder == Running
    ensures var p := promoted + [oldest];
      forall i, j :: 0 <= i < j < |p| ==> p[i] != p[j]
  {
    var next := Move(cur, oldest, Running);
    var p := promoted + [oldest];
    forall i | 0 <= i < |p|
      ensures p[i] in before && before[p[i]].folder == New && next[p[i]].folder == Running
    {
      if i == |promoted| {
        assert cur[oldest] == before[oldest];
      }
    }
  }

  /** After one more promotion the promoted files are still oldest first and no
   *  younger than any file still waiting. */
  lemma PromoteKeepsOrder(before: Queue, cur: Queue, promoted: seq<FileKey>, oldest: FileKey)
    requires Promoted(before, cur, promoted)
    requires IsOldestNew(cur, oldest) && oldest !in promoted
    ensures var next, p := Move(cur, oldest, Running), promoted + [oldest];
      forall i, j :: 0 <= i < j < |p| ==> next[p[i]].ctime <= next[p[j]].ctime
    ensures var next, p := Move(cur, oldest, Running), promoted + [oldest];
      forall i, k :: 0 <= i < |p| && k in FilesIn(next, New) ==> next[p[i]].ctime <= next[k].ctime
  {
    var next := Move(cur, oldest, Running);
    var p := promoted + [oldest];
    assert FilesIn(next, New) <= FilesIn(cur, New);
    forall i, k | 0 <= i < |p| && k in FilesIn(next, New)
      ensures next[p[i]].ctime <= next[k].ctime
    {
      assert k in FilesIn(cur, New);
    }
    forall i, j | 0 <= i < j < |p|
      ensures next[p[i]].ctime <= next[p[j]].ctime
    {
      if j == |promoted| {
        assert oldest in FilesIn(cur, New);
      }
    }
  }

  /** The job queue on disk, changed in place by the sweep and the failure paths. */
  class JobQueue {
    var files: Queue

    constructor (files: Queue)
      ensures this.files == files
    {
      this.files := files;
    }

    /** The admission sweep: when fewer than `maxJobs` files run and some wait,
     *  promote `min(maxJobs - running, new)` files from `new` to `running`, each
     *  time the oldest still waiting. */
    method AdmissionSweep(maxJobs: int) returns (promoted: seq<FileKey>)
      modifies this
      ensures |promoted| == AdmitCount(maxJobs, |FilesIn(old(files), Running)|, |FilesIn(old(files), New)|)
      ensures |FilesIn(files, Running)| == |FilesIn(old(files), Running)| + |promoted|
      ensures |FilesIn(files, New)| == |FilesIn(old(files), New)| - |promoted|
      ensures |FilesIn(old(files), Running)| < maxJobs ==>
        |FilesIn(files, Running)| == Min(maxJobs, |FilesIn(old(files), Running)| + |FilesIn(old(files), New)|)
      ensures Promoted(old(files), files, promoted)
      ensures FailStays(old(files), files)
    {
      var running := |FilesIn(files, Running)|;
      var waiting := |FilesIn(files, New)|;
      promoted := [];
      var n := AdmitCount(maxJobs, running, waiting);
      var i := 0;
      while i < n
        invariant 0 <= i <= n && |promoted| == i
        invariant |FilesIn(files, New)| == waiting - i && |FilesIn(files, Running)| == running + i
        invariant Promoted(old(files), files, promoted)
      {
        OldestExists(files);
        var oldest :| IsOldestNew(files, oldest);
        MoveCounts(files, oldest, Running);
        PromoteOldest(old(files), files, promoted, oldest);
        files := Move(files, oldest, Running);
        promoted := promoted + [oldest];
        i := i + 1;
      }
    }

    /** The routing loop: every running file that cannot be built into a DAG
     *  moves to `fail`; every other file stays where it is. */
    method RouteFailures(templates: seq<Template>, dagFails: set<FileKey>) returns (failed: set<FileKey>)
      modifies this
      ensures forall k :: k in failed <==> k in FilesIn(old(files), Running) && Unbuildable(k, templates, dagFails)
      ensures files == Routed(old(files), failed)
      ensures FailStays(old(files), files)
    {
      var todo := FilesIn(files, Running);
      failed := {};
      ghost var seen: set<FileKey> := {};
      ghost var running := todo;
      while todo != {}
        invariant todo + seen == running && todo !! seen
        invariant forall k :: k in failed <==> k in seen && Unbuildable(k, templates, dagFails)
        invariant failed <= seen
        invariant files == Routed(old(files), failed)
        decreases |todo|
      {
        var fn :| fn in todo;
        if Unbuildable(fn, templates, dagFails) {
          RouteOne(old(files), failed, fn);
          files := Move(files, fn, Fail);
          failed := failed + {fn};
        }
        TransferOne(todo, seen, running, fn);
        todo := todo - {fn};
        seen := seen + {fn};
      }
      RoutedFailStays(old(files), failed);
    }

    /** `fail_callback`: the running file of `root` whose name starts with the DAG
     *  id's part before its first '_' moves to `fail`; anything but exactly one
     *  such file is an error and nothing moves. */
    method FailCallback(dagId: string, root: string) returns (r: Result<FileKey, DagError>)
      modifies this
      ensures r.Ok? <==> |CallbackMatches(old(files), dagId, root)| == 1
      ensures r.Ok? ==> (CallbackMatches(old(files), dagId, root) == {r.value}
        && files == Move(old(files), r.value, Fail))
      ensures r.Err? ==> (files == old(files)
        && r.error == NotOneFailedFile(|CallbackMatches(old(files), dagId, root)|))
      ensures FailStays(old(files), files)
    {
      var matches := CallbackMatches(files, dagId, root);
      if |matches| != 1 {
        return Err(NotOneFailedFile(|matches|));
      }
      var k :| k in matches;
      assert |matches - {k}| == 0;
      assert matches == {k};
      files := Move(files, k, Fail);
      r := Ok(k);
    }
  }
}
