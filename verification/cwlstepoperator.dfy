/**
 * One step of a CWL workflow run on its own: the upstream promise stores are
 * merged, a one-step `Workflow` document is synthesised for the step, the CWL
 * interpreter runs it with the merged store as its job object, and the step's
 * declared outputs are published to the downstream steps.
 *
 * The step-input records follow `WorkflowStepInput` of the CWL v1.0 workflow
 * specification (`source`, `linkMerge`, `default`, `valueFrom`).
 */
module CwlStepOperator {
  import opened Wrappers
  import opened Json
  import opened CwlUtils
  import Strings
  import Paths

  // ------------------------------------------------------------ the documents

  /** A step input's `source`: one identifier or a list of them. */
  datatype Source = Single(id: string) | Multiple(ids: seq<string>)

  /** One entry of a step's `in` list. */
  datatype StepInput = StepInput(id: string, source: Option<Source>, linkMerge: Option<string>,
                                 default: Option<Json>, valueFrom: Option<string>)

  /** A workflow step as the workflow document gives it (the fields the runner reads). */
  datatype WorkflowStep = WorkflowStep(
    id: string, run: Json, ins: seq<StepInput>, out: seq<string>,
    scatter: Option<Source>, scatterMethod: Option<Json>,
    requirements: Option<Json>, hints: Option<Json>, stepLabel: Option<Json>, stepDoc: Option<Json>)

  /** An input of the tool a step runs: its identifier and its declared CWL type. */
  datatype ToolInput = ToolInput(id: string, typ: Json)

  /** The step a step operator runs: the step record, the identifiers of its
   *  declared `outputs`, and the `inputs` of the tool embedded in it. */
  datatype StepNode = StepNode(tool: WorkflowStep, outputs: seq<string>, toolInputs: seq<ToolInput>)

  /** The owning workflow document. */
  datatype Workflow = Workflow(cwlVersion: Option<string>, steps: seq<WorkflowStep>,
                               namespaces: Option<Json>, schemas: Option<Json>, requirements: Option<Json>)

  datatype WfInput = WfInput(id: string, typ: seq<Json>)
  datatype WfOutput = WfOutput(id: string, outputSource: string, typ: string)

  /** The synthesised one-step workflow document. */
  datatype SubWorkflow = SubWorkflow(
    cwlVersion: string, cwlClass: string, inputs: seq<WfInput>, outputs: seq<WfOutput>,
    steps: seq<WorkflowStep>, namespaces: Option<Json>, schemas: Option<Json>, requirements: Option<Json>)

  /** What an upstream step (or the dispatcher) hands on: its promises and, maybe, the output folder. */
  datatype Upstream = Upstream(promises: PromiseMap, outdir: Option<Json>)

  /** What the interpreter returns: its output object (None when it produced none) and its status. */
  datatype InterpreterRun = InterpreterRun(output: Option<PromiseMap>, status: string)

  /** What a step publishes downstream. */
  datatype StepResult = StepResult(promises: PromiseMap, outdir: Json)

  datatype StepError =
    | MissingOutdir          // WorkflowException: no upstream supplied an output folder
    | NoSourceField          // KeyError: an `in` entry without `source` was searched
    | SourceNotFound         // no `in` entry consumes the source
    | TypeNotFound(key: string)  // KeyError: the embedded tool has no input of that name
    | NoSuchStep(id: string) // IndexError: the workflow has no step with the step's id
    | PermanentFail          // ValueError: the interpreter failed and produced nothing

  // ------------------------------------------------------- identifier helpers

  /** `shortname(x).split("/")[-1]`: the step-local name of an identifier. */
  function LocalName(x: string): (r: string)
    ensures '#' !in r && '/' !in r
  {
    var s := Shortname(x);
    var r := Strings.LastSegment(s, '/');
    Strings.LastSegmentSuffix(s, '/');
    assert forall k :: 0 <= k < |r| ==> r[k] == s[|s| - |r| + k];
    r
  }

  /** `[shortname(x) for x in xs]`. */
  function Shortnames(xs: seq<string>): (r: seq<string>)
    ensures |r| == |xs| && forall i :: 0 <= i < |xs| ==> r[i] == Shortname(xs[i])
  {
    seq(|xs|, i requires 0 <= i < |xs| => Shortname(xs[i]))
  }

  predicate SourceTruthy(s: Source)
  {
    match s
    case Single(id) => id != ""
    case Multiple(ids) => ids != []
  }

  /** The identifiers a source names, as `flatten` sees them. */
  function SourceIds(s: Source): seq<string>
  {
    match s
    case Single(id) => [id]
    case Multiple(ids) => ids
  }

  /** The JSON form of a source. */
  function SourceJson(s: Source): Json
  {
    match s
    case Single(id) => JStr(id)
    case Multiple(ids) => JArray(Strs(ids))
  }

  function Strs(xs: seq<string>): (r: seq<Json>)
    ensures |r| == |xs| && forall i :: 0 <= i < |xs| ==> r[i] == JStr(xs[i])
  {
    seq(|xs|, i requires 0 <= i < |xs| => JStr(xs[i]))
  }

  /** `[step_in["source"] for step_in in ins if "source" in step_in]`. */
  function SourcesJson(ins: seq<StepInput>): seq<Json>
  {
    if ins == [] then []
    else (if ins[0].source.Some? then [SourceJson(ins[0].source.value)] else []) + SourcesJson(ins[1..])
  }

  /** Every source identifier of an `in` list, in order, duplicates kept. */
  function AllSourceIds(ins: seq<StepInput>): seq<string>
  {
    if ins == [] then []
    else (if ins[0].source.Some? then SourceIds(ins[0].source.value) else []) + AllSourceIds(ins[1..])
  }

  lemma StrsAppend(a: seq<string>, b: seq<string>)
    ensures Strs(a + b) == Strs(a) + Strs(b)
  {
  }

  /** `flatten` of the source list is exactly the source identifiers, in order. */
  lemma {:induction false} FlatSources(ins: seq<StepInput>)
    ensures Flat(SourcesJson(ins)) == Strs(AllSourceIds(ins))
  {
    if ins != [] {
      var head := if ins[0].source.Some? then [SourceJson(ins[0].source.value)] else [];
      FlatAppend(head, SourcesJson(ins[1..]));
      FlatSources(ins[1..]);
      if ins[0].source.Some? {
        var s := ins[0].source.value;
        assert Flat(head) == Flat(head[..0]) + Leaves(head[0]);
        if s.Multiple? {
          FlatOfFlat(Strs(s.ids));
        }
        assert Flat(head) == Strs(SourceIds(s));
      } else {
        assert Flat(head) == [];
      }
      StrsAppend(if ins[0].source.Some? then SourceIds(ins[0].source.value) else [], AllSourceIds(ins[1..]));
    }
  }

  /** `list(set(xs))`: each identifier once. Python leaves the order open; the model
   *  keeps first occurrences. */
  function Distinct(xs: seq<string>): (r: seq<string>)
    ensures forall x :: x in r <==> x in xs
    ensures forall i, j :: 0 <= i < j < |r| ==> r[i] != r[j]
  {
    if xs == [] then []
    else
      var d := Distinct(xs[..|xs| - 1]);
      var x := xs[|xs| - 1];
      assert xs == xs[..|xs| - 1] + [x];
      if x in d then d else d + [x]
  }

  // ------------------------------------------------------------ get_inputs

  /** The index of the last occurrence of `key` in `names`. */
  function LastIndex(names: seq<string>, key: string): (r: Option<nat>)
    ensures r.None? <==> forall i :: 0 <= i < |names| ==> names[i] != key
    ensures r.Some? ==> r.value < |names| && names[r.value] == key
                          && forall j :: r.value < j < |names| ==> names[j] != key
  {
    if names == [] then None
    else
      var later := LastIndex(names[1..], key);
      if later.Some? then Some(later.value + 1)
      else if names[0] == key then Some(0)
      else None
  }

  /** The index of the embedded tool's input named `key`: the last such input, as
   *  later entries overwrite earlier ones in the dictionary comprehension. */
  function TypeIndex(inputs: seq<ToolInput>, key: string): (r: Option<nat>)
    ensures r.None? <==> forall i :: 0 <= i < |inputs| ==> LocalName(inputs[i].id) != key
    ensures r.Some? ==> r.value < |inputs| && LocalName(inputs[r.value].id) == key
                          && forall j :: r.value < j < |inputs| ==> LocalName(inputs[j].id) != key
  {
    LastIndex(InputNames(inputs), key)
  }

  /** The local names of the embedded tool's inputs, in order. */
  function InputNames(inputs: seq<ToolInput>): (r: seq<string>)
    ensures |r| == |inputs| && forall i :: 0 <= i < |inputs| ==> r[i] == LocalName(inputs[i].id)
  {
    seq(|inputs|, i requires 0 <= i < |inputs| => LocalName(inputs[i].id))
  }

  /** `get_type_dy_id`: the declared type of the embedded tool's input named `key`;
   *  None is the KeyError. */
  function TypeById(inputs: seq<ToolInput>, key: string): (r: Option<Json>)
    ensures r.None? <==> forall i :: 0 <= i < |inputs| ==> LocalName(inputs[i].id) != key
    ensures r.Some? ==> exists i :: 0 <= i < |inputs| && LocalName(inputs[i].id) == key && inputs[i].typ == r.value
                          && forall j :: i < j < |inputs| ==> LocalName(inputs[j].id) != key
  {
    var i := TypeIndex(inputs, key);
    if i.None? then None else Some(inputs[i.value].typ)
  }

  /** The `in` entry has a `source` one of whose identifiers has the target's shortname. */
  predicate Consumes(e: StepInput, target: string)
  {
    e.source.Some? && Shortname(target) in Shortnames(SourceIds(e.source.value))
  }

  /** `get_id_by_source`: the local name of the first `in` entry one of whose sources
   *  has the target's shortname. Reaching an entry without `source` raises KeyError;
   *  finding none gives None, on which the caller then fails. */
  function IdBySource(ins: seq<StepInput>, target: string): (r: Result<string, StepError>)
    ensures r.Err? ==> r.error == SourceNotFound || r.error == NoSourceField
  {
    if ins == [] then Err(SourceNotFound)
    else if ins[0].source.None? then Err(NoSourceField)
    else if Consumes(ins[0], target) then Ok(LocalName(ins[0].id))
    else IdBySource(ins[1..], target)
  }

  /** The entries before position `n` all have a `source` and none consumes the target. */
  predicate PassedOver(ins: seq<StepInput>, target: string, n: nat)
  {
    forall j :: 0 <= j < n && j < |ins| ==> ins[j].source.Some? && !Consumes(ins[j], target)
  }

  /** The search stops at the first entry that either lacks `source` (KeyError) or
   *  consumes the target (its local name); it reports no consumer only when every
   *  entry has a `source` and none consumes the target. */
  lemma {:induction false} IdBySourceFirst(ins: seq<StepInput>, target: string)
    ensures IdBySource(ins, target) == Err(SourceNotFound) <==> PassedOver(ins, target, |ins|)
    ensures IdBySource(ins, target) == Err(NoSourceField) ==>
              exists i :: 0 <= i < |ins| && ins[i].source.None? && PassedOver(ins, target, i)
    ensures IdBySource(ins, target).Ok? ==>
              exists i :: 0 <= i < |ins| && Consumes(ins[i], target)
                && IdBySource(ins, target).value == LocalName(ins[i].id) && PassedOver(ins, target, i)
  {
    if ins != [] && ins[0].source.Some? && !Consumes(ins[0], target) {
      var rest := ins[1..];
      IdBySourceFirst(rest, target);
      PassedOverTail(ins, target, |ins|);
      var r := IdBySource(rest, target);
      if r.Ok? || r == Err(NoSourceField) {
        var i :| 0 <= i < |rest| && (if r.Ok? then Consumes(rest[i], target) && r.value == LocalName(rest[i].id)
                                     else rest[i].source.None?)
                 && PassedOver(rest, target, i);
        assert rest[i] == ins[i + 1];
        PassedOverTail(ins, target, i + 1);
      }
    }
  }

  /** Past an entry that has a `source` and does not consume the target, passing
   *  over the first `n` entries is passing over the first `n - 1` of the rest. */
  lemma PassedOverTail(ins: seq<StepInput>, target: string, n: nat)
    requires 1 <= n <= |ins| && ins[0].source.Some? && !Consumes(ins[0], target)
    ensures PassedOver(ins, target, n) <==> PassedOver(ins[1..], target, n - 1)
  {
    var rest := ins[1..];
    if PassedOver(rest, target, n - 1) {
      forall j | 0 <= j < n ensures ins[j].source.Some? && !Consumes(ins[j], target) {
        if j > 0 { assert ins[j] == rest[j - 1]; }
      }
    }
    if PassedOver(ins, target, n) {
      forall j | 0 <= j < n - 1 ensures rest[j].source.Some? && !Consumes(rest[j], target) {
        assert rest[j] == ins[j + 1];
      }
    }
  }

  /** A source whose consuming entry and embedded-tool type can be found. */
  predicate Resolves(step: StepNode, source: string)
  {
    var c := IdBySource(step.tool.ins, source);
    c.Ok? && TypeById(step.toolInputs, LocalName(c.value)).Some?
  }

  /** An input typed `["null", "Any", T]`, `T` the type of the embedded-tool input
   *  named like the `in` entry that consumes it. */
  predicate WellTyped(step: StepNode, inp: WfInput)
  {
    var c := IdBySource(step.tool.ins, inp.id);
    && |inp.typ| == 3 && inp.typ[0] == JStr("null") && inp.typ[1] == JStr("Any")
    && c.Ok? && TypeById(step.toolInputs, LocalName(c.value)) == Some(inp.typ[2])
  }

  /** The workflow input for one source identifier: its shortname, typed
   *  `["null", "Any", T]` through the consuming entry's embedded-tool input. */
  function InputFor(step: StepNode, source: string): (r: Result<WfInput, StepError>)
    ensures r.Ok? <==> Resolves(step, Shortname(source))
    ensures r.Ok? ==> r.value.id == Shortname(source) && WellTyped(step, r.value)
  {
    var c :- IdBySource(step.tool.ins, Shortname(source));
    var t := TypeById(step.toolInputs, LocalName(c));
    if t.None? then Err(TypeNotFound(LocalName(c)))
    else Ok(WfInput(Shortname(source), [JStr("null"), JStr("Any"), t.value]))
  }

  /** A list comprehension whose elements may raise: all values when none raises,
   *  otherwise the first error. */
  function Collect<T(==), E(==)>(rs: seq<Result<T, E>>): (r: Result<seq<T>, E>)
    ensures r.Ok? <==> forall i :: 0 <= i < |rs| ==> rs[i].Ok?
    ensures r.Ok? ==> |r.value| == |rs| && forall i :: 0 <= i < |rs| ==> rs[i] == Ok(r.value[i])
    ensures r.Err? ==> exists i :: 0 <= i < |rs| && rs[i] == Err(r.error)
                          && forall j :: 0 <= j < i ==> rs[j].Ok?
  {
    if rs == [] then Ok([])
    else if rs[0].Err? then Err(rs[0].error)
    else
      var rest := Collect(rs[1..]);
      assert forall i :: 1 <= i < |rs| ==> rs[i] == rs[1..][i - 1];
      if rest.Err? then
        var j :| 0 <= j < |rs| - 1 && rs[1..][j] == Err(rest.error)
                 && forall k :: 0 <= k < j ==> rs[1..][k].Ok?;
        assert rs[j + 1] == Err(rest.error);
        Err(rest.error)
      else
        var r := [rs[0].value] + rest.value;
        assert forall i :: 1 <= i < |rs| ==> r[i] == rest.value[i - 1];
        Ok(r)
  }

  /** The inputs for the given source identifiers, in order; the first failing
   *  lookup raises. */
  function InputsOf(sources: seq<string>, step: StepNode): (r: Result<seq<WfInput>, StepError>)
    ensures r.Ok? <==> forall i :: 0 <= i < |sources| ==> InputFor(step, sources[i]).Ok?
    ensures r.Ok? ==> |r.value| == |sources|
                      && forall i :: 0 <= i < |sources| ==> InputFor(step, sources[i]) == Ok(r.value[i])
    ensures r.Err? ==> exists i :: 0 <= i < |sources| && InputFor(step, sources[i]) == Err(r.error)
                          && forall j :: 0 <= j < i ==> InputFor(step, sources[j]).Ok?
  {
    var rs := seq(|sources|, i requires 0 <= i < |sources| => InputFor(step, sources[i]));
    assert forall i :: 0 <= i < |sources| ==> rs[i] == InputFor(step, sources[i]);
    Collect(rs)
  }

  /** `get_inputs`: one workflow input per distinct source identifier, each built by
   *  `InputFor`; the first failing lookup raises. */
  function GetInputs(step: StepNode): (r: Result<seq<WfInput>, StepError>)
    ensures r.Ok? <==> forall s :: s in AllSourceIds(step.tool.ins) ==> InputFor(step, s).Ok?
    ensures r.Ok? ==> |r.value| == |Distinct(AllSourceIds(step.tool.ins))|
    ensures r.Ok? ==> forall i :: 0 <= i < |r.value| ==>
                        InputFor(step, Distinct(AllSourceIds(step.tool.ins))[i]) == Ok(r.value[i])
  {
    var sources := Distinct(AllSourceIds(step.tool.ins));
    EveryElementOfSameSet(sources, AllSourceIds(step.tool.ins), s => InputFor(step, s).Ok?);
    InputsOf(sources, step)
  }

  /** A property holds at every position of a sequence exactly when it holds for
   *  every member of another sequence with the same elements. */
  lemma EveryElementOfSameSet(xs: seq<string>, ys: seq<string>, p: string -> bool)
    requires forall x :: x in xs <==> x in ys
    ensures (forall i :: 0 <= i < |xs| ==> p(xs[i])) <==> (forall y :: y in ys ==> p(y))
  {
    if forall i :: 0 <= i < |xs| ==> p(xs[i]) {
      forall y | y in ys
        ensures p(y)
      {
        var i :| 0 <= i < |xs| && xs[i] == y;
      }
    }
  }

  /** Every source identifier has a consuming entry: the lookup can only fail on an
   *  earlier entry without `source`, never for want of a match. */
  lemma ConsumerExists(ins: seq<StepInput>, s: string)
    requires s in AllSourceIds(ins)
    ensures IdBySource(ins, Shortname(s)) != Err(SourceNotFound)
    ensures (forall k :: 0 <= k < |ins| ==> ins[k].source.Some?) ==> IdBySource(ins, Shortname(s)).Ok?
  {
    var k := SourceOwner(ins, s);
    var ids := SourceIds(ins[k].source.value);
    var j :| 0 <= j < |ids| && ids[j] == s;
    assert Shortnames(ids)[j] == Shortname(Shortname(s));
    assert Consumes(ins[k], Shortname(s));
    IdBySourceFirst(ins, Shortname(s));
  }

  /** The entry whose `source` lists a given identifier. */
  lemma {:induction false} SourceOwner(ins: seq<StepInput>, s: string) returns (k: nat)
    requires s in AllSourceIds(ins)
    ensures k < |ins| && ins[k].source.Some? && s in SourceIds(ins[k].source.value)
  {
    var head := if ins[0].source.Some? then SourceIds(ins[0].source.value) else [];
    assert AllSourceIds(ins) == head + AllSourceIds(ins[1..]);
    if s in head {
      k := 0;
    } else {
      var k' := SourceOwner(ins[1..], s);
      k := k' + 1;
      assert ins[k] == ins[1..][k'];
    }
  }

  /** Two `in` entries that take the same source give a single workflow input for it. */
  lemma SharedSourceDeclaredOnce(step: StepNode, e1: StepInput, e2: StepInput, src: string)
    requires step.tool.ins == [e1, e2]
    requires e1.source == Some(Single(src)) && e2.source == Some(Single(src))
    requires GetInputs(step).Ok?
    ensures |GetInputs(step).value| == 1 && GetInputs(step).value[0].id == Shortname(src)
  {
    SourcesOfPair(e1, e2, src);
    DistinctOfRepeat(src);
    var r := GetInputs(step).value;
    assert InputFor(step, src) == Ok(r[0]);
  }

  /** Two entries with the same single source list that source twice. */
  lemma SourcesOfPair(e1: StepInput, e2: StepInput, src: string)
    requires e1.source == Some(Single(src)) && e2.source == Some(Single(src))
    ensures AllSourceIds([e1, e2]) == [src, src]
  {
    assert [e1, e2][1..] == [e2];
    assert AllSourceIds([e2]) == [src] + AllSourceIds([]);
  }

  /** A repeated identifier is kept once. */
  lemma DistinctOfRepeat(x: string)
    ensures Distinct([x, x]) == [x]
  {
    assert Distinct([x]) == [x] by {
      assert [x][..0] == [];
    }
    assert [x, x][..1] == [x];
  }

  // ----------------------------------------------------------- get_outputs

  /** `get_outputs`: one workflow output per entry of the step's `out`, in order,
   *  named by its local name and bound to its shortname, typed `Any`. */
  function GetOutputs(step: StepNode): (r: seq<WfOutput>)
    ensures |r| == |step.tool.out|
    ensures forall i :: 0 <= i < |r| ==>
              && r[i].outputSource == Shortname(step.tool.out[i])
              && r[i].id == Strings.LastSegment(r[i].outputSource, '/')
              && '#' !in r[i].outputSource && '/' !in r[i].id
              && r[i].typ == "Any"
  {
    seq(|step.tool.out|, i requires 0 <= i < |step.tool.out| =>
      WfOutput(LocalName(step.tool.out[i]), Shortname(step.tool.out[i]), "Any"))
  }

  // ------------------------------------------------------- get_custom_step

  /** The value of an optional field when it is truthy: the `if x.get(f, None):` copies. */
  function KeepTruthy(v: Option<Json>): (r: Option<Json>)
    ensures r.Some? <==> v.Some? && Truthy(v.value)
    ensures r.Some? ==> r == v
  {
    if v.Some? && Truthy(v.value) then v else None
  }

  function KeepNonEmpty(v: Option<string>): (r: Option<string>)
    ensures r.Some? <==> v.Some? && v.value != ""
    ensures r.Some? ==> r == v
  {
    if v.Some? && v.value != "" then v else None
  }

  /** A source with its identifiers shortnamed, list or not as it was. */
  function ShortSource(s: Source): (r: Source)
    ensures r.Single? == s.Single?
    ensures SourceIds(r) == Shortnames(SourceIds(s))
  {
    match s
    case Single(id) => Single(Shortname(id))
    case Multiple(ids) => Multiple(Shortnames(ids))
  }

  /** A scatter field with its identifiers cut to local names, list or not as it was. */
  function LocalScatter(s: Source): (r: Source)
    ensures r.Single? == s.Single?
    ensures |SourceIds(r)| == |SourceIds(s)|
    ensures forall i :: 0 <= i < |SourceIds(r)| ==> SourceIds(r)[i] == LocalName(SourceIds(s)[i])
  {
    match s
    case Single(id) => Single(LocalName(id))
    case Multiple(ids) => Multiple(seq(|ids|, i requires 0 <= i < |ids| => LocalName(ids[i])))
  }

  /** The copy of one `in` entry: its local name, its shortnamed source, and the
   *  optional fields that are truthy. */
  function CopyStepInput(e: StepInput): (r: StepInput)
    ensures r.id == LocalName(e.id)
    ensures r.source.Some? <==> e.source.Some? && SourceTruthy(e.source.value)
    ensures r.source.Some? ==> r.source.value == ShortSource(e.source.value)
    ensures r.linkMerge.Some? <==> e.linkMerge.Some? && e.linkMerge.value != ""
    ensures r.default.Some? <==> e.default.Some? && Truthy(e.default.value)
    ensures r.valueFrom.Some? <==> e.valueFrom.Some? && e.valueFrom.value != ""
    ensures r.linkMerge.Some? ==> r.linkMerge == e.linkMerge
    ensures r.default.Some? ==> r.default == e.default
    ensures r.valueFrom.Some? ==> r.valueFrom == e.valueFrom
  {
    StepInput(
      LocalName(e.id),
      if e.source.Some? && SourceTruthy(e.source.value) then Some(ShortSource(e.source.value)) else None,
      KeepNonEmpty(e.linkMerge),
      KeepTruthy(e.default),
      KeepNonEmpty(e.valueFrom))
  }

  /** The step record `get_custom_step` builds from the workflow's step. */
  function CustomStep(t: WorkflowStep): (r: WorkflowStep)
    ensures r.id == Shortname(t.id) && r.run == t.run
    ensures |r.ins| == |t.ins| && forall i :: 0 <= i < |t.ins| ==> r.ins[i] == CopyStepInput(t.ins[i])
    ensures |r.out| == |t.out| && forall i :: 0 <= i < |t.out| ==> r.out[i] == LocalName(t.out[i])
    ensures r.scatter.Some? <==> t.scatter.Some? && SourceTruthy(t.scatter.value)
    ensures r.scatter.Some? ==> r.scatter.value == LocalScatter(t.scatter.value)
    ensures r.scatterMethod == KeepTruthy(t.scatterMethod) && r.requirements == KeepTruthy(t.requirements)
    ensures r.hints == KeepTruthy(t.hints) && r.stepLabel == KeepTruthy(t.stepLabel) && r.stepDoc == KeepTruthy(t.stepDoc)
  {
    WorkflowStep(
      Shortname(t.id), t.run,
      seq(|t.ins|, i requires 0 <= i < |t.ins| => CopyStepInput(t.ins[i])),
      seq(|t.out|, i requires 0 <= i < |t.out| => LocalName(t.out[i])),
      if t.scatter.Some? && SourceTruthy(t.scatter.value) then Some(LocalScatter(t.scatter.value)) else None,
      KeepTruthy(t.scatterMethod), KeepTruthy(t.requirements), KeepTruthy(t.hints),
      KeepTruthy(t.stepLabel), KeepTruthy(t.stepDoc))
  }

  /** The index of the first workflow step whose shortname is `key`. */
  function FindStep(steps: seq<WorkflowStep>, key: string): (r: Option<nat>)
    ensures r.None? <==> forall i :: 0 <= i < |steps| ==> Shortname(steps[i].id) != key
    ensures r.Some? ==> r.value < |steps| && Shortname(steps[r.value].id) == key
                          && forall j :: 0 <= j < r.value ==> Shortname(steps[j].id) != key
  {
    FirstIndex(StepNames(steps), key)
  }

  /** The shortnames of the workflow's steps, in order. */
  function StepNames(steps: seq<WorkflowStep>): (r: seq<string>)
    ensures |r| == |steps| && forall i :: 0 <= i < |steps| ==> r[i] == Shortname(steps[i].id)
  {
    seq(|steps|, i requires 0 <= i < |steps| => Shortname(steps[i].id))
  }

  /** The index of the first occurrence of `key` in `names`. */
  function FirstIndex(names: seq<string>, key: string): (r: Option<nat>)
    ensures r.None? <==> forall i :: 0 <= i < |names| ==> names[i] != key
    ensures r.Some? ==> r.value < |names| && names[r.value] == key
                          && forall j :: 0 <= j < r.value ==> names[j] != key
  {
    if names == [] then None
    else if names[0] == key then Some(0)
    else
      var r := FirstIndex(names[1..], key);
      if r.None? then None else Some(r.value + 1)
  }

  /** `get_custom_step`: the copy of the matching workflow step, its `in` entries
   *  appended one by one; IndexError when no step matches. */
  method GetCustomStep(workflow: Workflow, step: StepNode) returns (r: Result<WorkflowStep, StepError>)
    ensures FindStep(workflow.steps, Shortname(step.tool.id)).None? ==> r == Err(NoSuchStep(step.tool.id))
    ensures FindStep(workflow.steps, Shortname(step.tool.id)).Some? ==>
              r == Ok(CustomStep(workflow.steps[FindStep(workflow.steps, Shortname(step.tool.id)).value]))
  {
    var found := FindStep(workflow.steps, Shortname(step.tool.id));
    if found.None? {
      return Err(NoSuchStep(step.tool.id));
    }
    var t := workflow.steps[found.value];
    var ins: seq<StepInput> := [];
    var i := 0;
    while i < |t.ins|
      invariant 0 <= i <= |t.ins|
      invariant |ins| == i && forall j :: 0 <= j < i ==> ins[j] == CopyStepInput(t.ins[j])
    {
      ins := ins + [CopyStepInput(t.ins[i])];
      i := i + 1;
    }
    var custom := CustomStep(t);
    assert ins == custom.ins;
    r := Ok(custom.(ins := ins));
  }

  // ------------------------------------------ remove_not_provided_inputs_from_step

  /** The entries the pruning keeps: those with `valueFrom`, `default`, a list
   *  `source`, or a single `source` already in the job object. */
  predicate Provided(e: StepInput, job: PromiseMap)
  {
    || e.valueFrom.Some?
    || e.default.Some?
    || (e.source.Some? && e.source.value.Multiple?)
    || (e.source.Some? && e.source.value.Single? && Shortname(e.source.value.id) in job)
  }

  /** `list.remove(x)`: drop the first element equal to `x`. */
  function RemoveFirst(s: seq<StepInput>, x: StepInput): (r: seq<StepInput>)
    requires x in s
    ensures |r| == |s| - 1
    ensures multiset(r) == multiset(s) - multiset{x}
  {
    assert s == [s[0]] + s[1..];
    if s[0] == x then s[1..]
    else [s[0]] + RemoveFirst(s[1..], x)
  }

  /** The iteration of the pruning loop from index `i` on: the list is shortened under
   *  the iterator, so the entry after a removed one is never looked at. */
  function PruneFrom(s: seq<StepInput>, i: nat, job: PromiseMap): (r: seq<StepInput>)
    ensures |r| <= |s| && multiset(r) <= multiset(s)
    ensures (forall k :: i <= k < |s| ==> Provided(s[k], job)) ==> r == s
    decreases |s| - i
  {
    if i >= |s| then s
    else if Provided(s[i], job) then PruneFrom(s, i + 1, job)
    else PruneFrom(RemoveFirst(s, s[i]), i + 1, job)
  }

  /** `remove_not_provided_inputs_from_step` on the `in` list. */
  function Pruned(s: seq<StepInput>, job: PromiseMap): (r: seq<StepInput>)
    ensures |r| <= |s| && multiset(r) <= multiset(s)
    ensures (forall k :: 0 <= k < |s| ==> Provided(s[k], job)) ==> r == s
  {
    PruneFrom(s, 0, job)
  }

  /** `a` keeps the order of the elements it takes from `b`. */
  predicate IsSubseq(a: seq<StepInput>, b: seq<StepInput>)
    decreases |b|
  {
    if a == [] then true
    else if b == [] then false
    else if a[0] == b[0] then IsSubseq(a[1..], b[1..])
    else IsSubseq(a, b[1..])
  }

  /** The provided entries of a list, in order. */
  function ProvidedOnly(s: seq<StepInput>, job: PromiseMap): seq<StepInput>
  {
    if s == [] then []
    else (if Provided(s[0], job) then [s[0]] else []) + ProvidedOnly(s[1..], job)
  }

  lemma {:induction false} SubseqRefl(s: seq<StepInput>)
    ensures IsSubseq(s, s)
  {
    if s != [] {
      SubseqRefl(s[1..]);
    }
  }

  /** Dropping the first element of the smaller list keeps it a subsequence. */
  lemma {:induction false} SubseqTail(a: seq<StepInput>, b: seq<StepInput>)
    requires IsSubseq(a, b) && a != []
    ensures IsSubseq(a[1..], b)
    decreases |b|, 1
  {
    if a[0] == b[0] {
      SubseqCons(a[1..], b);
    } else {
      SubseqTail(a, b[1..]);
      SubseqCons(a[1..], b);
    }
  }

  /** Putting an element in front of the larger list keeps a subsequence. */
  lemma {:induction false} SubseqCons(a: seq<StepInput>, b: seq<StepInput>)
    requires b != [] && IsSubseq(a, b[1..])
    ensures IsSubseq(a, b)
    decreases |b|, 0
  {
    if a != [] && a[0] == b[0] {
      SubseqTail(a, b[1..]);
    }
  }

  lemma {:induction false} SubseqTrans(a: seq<StepInput>, b: seq<StepInput>, c: seq<StepInput>)
    requires IsSubseq(a, b) && IsSubseq(b, c)
    ensures IsSubseq(a, c)
    decreases |c|
  {
    if a != [] && b != [] && c != [] {
      if b[0] == c[0] {
        if a[0] == b[0] {
          SubseqTrans(a[1..], b[1..], c[1..]);
        } else {
          SubseqTrans(a, b[1..], c[1..]);
          SubseqCons(a, c);
        }
      } else {
        SubseqTrans(a, b, c[1..]);
        SubseqCons(a, c);
      }
    }
  }

  lemma {:induction false} RemoveFirstSubseq(s: seq<StepInput>, x: StepInput)
    requires x in s
    ensures IsSubseq(RemoveFirst(s, x), s)
  {
    if s[0] == x {
      SubseqRefl(s[1..]);
      SubseqCons(s[1..], s);
    } else {
      RemoveFirstSubseq(s[1..], x);
    }
  }

  lemma {:induction false} RemoveFirstKeepsProvided(s: seq<StepInput>, x: StepInput, job: PromiseMap)
    requires x in s && !Provided(x, job)
    ensures ProvidedOnly(RemoveFirst(s, x), job) == ProvidedOnly(s, job)
  {
    if s[0] != x {
      RemoveFirstKeepsProvided(s[1..], x, job);
      assert ([s[0]] + RemoveFirst(s[1..], x))[1..] == RemoveFirst(s[1..], x);
    }
  }

  /** The pruning keeps the order of what it keeps, and keeps every provided entry. */
  lemma {:induction false} PruneFromSound(s: seq<StepInput>, i: nat, job: PromiseMap)
    ensures IsSubseq(PruneFrom(s, i, job), s)
    ensures ProvidedOnly(PruneFrom(s, i, job), job) == ProvidedOnly(s, job)
    decreases |s| - i
  {
    if i >= |s| {
      SubseqRefl(s);
    } else if Provided(s[i], job) {
      PruneFromSound(s, i + 1, job);
    } else {
      var s' := RemoveFirst(s, s[i]);
      PruneFromSound(s', i + 1, job);
      RemoveFirstSubseq(s, s[i]);
      SubseqTrans(PruneFrom(s', i + 1, job), s', s);
      RemoveFirstKeepsProvided(s, s[i], job);
    }
  }

  lemma {:induction false} SubseqMultiset(a: seq<StepInput>, b: seq<StepInput>)
    requires IsSubseq(a, b)
    ensures multiset(a) <= multiset(b)
    decreases |b|
  {
    if a != [] && b != [] {
      assert a == [a[0]] + a[1..];
      assert b == [b[0]] + b[1..];
      if a[0] == b[0] {
        SubseqMultiset(a[1..], b[1..]);
      } else {
        SubseqMultiset(a, b[1..]);
      }
    }
  }

  lemma {:induction false} ProvidedCount(s: seq<StepInput>, x: StepInput, job: PromiseMap)
    requires Provided(x, job)
    ensures multiset(ProvidedOnly(s, job))[x] == multiset(s)[x]
  {
    if s != [] {
      ProvidedCount(s[1..], x, job);
      var head := if Provided(s[0], job) then [s[0]] else [];
      assert multiset(ProvidedOnly(s, job)) == multiset(head) + multiset(ProvidedOnly(s[1..], job));
      assert s == [s[0]] + s[1..];
      assert multiset(s) == multiset([s[0]]) + multiset(s[1..]);
      assert multiset(head)[x] == multiset([s[0]])[x];
    }
  }

  /** What the pruning of `remove_not_provided_inputs_from_step` guarantees: the
   *  result is an order-preserving subsequence of the entries, every provided
   *  entry is still there, and everything removed was not provided. */
  lemma PrunedSound(s: seq<StepInput>, job: PromiseMap)
    ensures IsSubseq(Pruned(s, job), s)
    ensures ProvidedOnly(Pruned(s, job), job) == ProvidedOnly(s, job)
    ensures forall x :: x in multiset(s) - multiset(Pruned(s, job)) ==> !Provided(x, job)
  {
    var r := Pruned(s, job);
    PruneFromSound(s, 0, job);
    SubseqMultiset(r, s);
    forall x | x in multiset(s) - multiset(r)
      ensures !Provided(x, job)
    {
      if Provided(x, job) {
        ProvidedCount(s, x, job);
        ProvidedCount(r, x, job);
      }
    }
  }

  /** Of two neighbouring entries that are both unprovided, only the first is removed:
   *  the second is skipped because the list shrank under the loop. */
  lemma PruneSkipsNeighbour(a: StepInput, b: StepInput, job: PromiseMap)
    requires !Provided(a, job) && !Provided(b, job) && a != b
    ensures Pruned([a, b], job) == [b]
  {
    assert RemoveFirst([a, b], a) == [b];
    assert PruneFrom([a, b], 0, job) == PruneFrom([b], 1, job);
  }

  /** A `default: 0` is not copied, so an entry that relied on it alone is pruned. */
  lemma FalsyDefaultIsPruned(e: StepInput, job: PromiseMap)
    requires e.default == Some(JInt(0)) && e.source.None? && e.valueFrom.None?
    ensures CopyStepInput(e).default.None?
    ensures Pruned([CopyStepInput(e)], job) == []
  {
    var c := CopyStepInput(e);
    assert !Provided(c, job);
    assert RemoveFirst([c], c) == [];
    assert PruneFrom([c], 0, job) == PruneFrom([], 1, job);
  }

  /** `remove_not_provided_inputs_from_step`: removes unprovided entries from the list
   *  while iterating over it. */
  method PruneInputs(ins: seq<StepInput>, job: PromiseMap) returns (r: seq<StepInput>)
    ensures r == Pruned(ins, job)
    ensures IsSubseq(r, ins) && ProvidedOnly(r, job) == ProvidedOnly(ins, job)
    ensures forall x :: x in multiset(ins) - multiset(r) ==> !Provided(x, job)
  {
    r := ins;
    var i := 0;
    while i < |r|
      invariant PruneFrom(r, i, job) == Pruned(ins, job)
      decreases |r| - i
    {
      if !Provided(r[i], job) {
        r := RemoveFirst(r, r[i]);
      }
      i := i + 1;
    }
    PrunedSound(ins, job);
  }

  // ------------------------------------------------------ step_to_workflow

  /** Where the one-step workflow is written: `<dir>/<name>_workflow_<step><ext>` beside
   *  the workflow file. */
  function SubWorkflowPath(cwlWorkflow: string, stepId: string): string
  {
    var (stem, ext) := Paths.SplitExt(Paths.Basename(cwlWorkflow));
    Paths.Join(Paths.Dirname(cwlWorkflow), stem + "_workflow_" + Shortname(stepId) + ext)
  }

  /** The synthesised file sits in the workflow file's directory under the derived name. */
  lemma SubWorkflowBeside(cwlWorkflow: string, stepId: string)
    requires '/' !in Shortname(stepId)
    ensures Paths.Dirname(SubWorkflowPath(cwlWorkflow, stepId)) == Paths.Dirname(cwlWorkflow)
    ensures Paths.Basename(SubWorkflowPath(cwlWorkflow, stepId))
         == Paths.SplitExt(Paths.Basename(cwlWorkflow)).0 + "_workflow_" + Shortname(stepId)
            + Paths.SplitExt(Paths.Basename(cwlWorkflow)).1
  {
    var (stem, ext) := Paths.SplitExt(Paths.Basename(cwlWorkflow));
    var name := stem + "_workflow_" + Shortname(stepId) + ext;
    assert '/' !in stem && '/' !in ext by {
      assert stem + ext == Paths.Basename(cwlWorkflow);
      assert forall k :: 0 <= k < |stem| ==> stem[k] == (stem + ext)[k];
      assert forall k :: 0 <= k < |ext| ==> ext[k] == (stem + ext)[|stem| + k];
    }
    assert '/' !in "_workflow_";
    assert '/' !in name;
    Paths.JoinedNameSitsInDir(Paths.Dirname(cwlWorkflow), name);
  }

  function CwlVersion(wf: Workflow): string
  {
    if wf.cwlVersion.Some? then wf.cwlVersion.value else "v1.0"
  }

  /** `step_to_workflow`: the one-step workflow document and the path it is written to. */
  function StepToWorkflow(wf: Workflow, step: StepNode, job: PromiseMap, cwlWorkflow: string)
    : (r: Result<(SubWorkflow, string), StepError>)
    ensures r.Ok? <==> GetInputs(step).Ok? && FindStep(wf.steps, Shortname(step.tool.id)).Some?
    ensures r.Err? && GetInputs(step).Err? ==> r.error == GetInputs(step).error
    ensures r.Ok? ==>
              var doc := r.value.0;
              && doc.cwlClass == "Workflow"
              && doc.cwlVersion == (if wf.cwlVersion.Some? then wf.cwlVersion.value else "v1.0")
              && doc.inputs == GetInputs(step).value
              && doc.outputs == GetOutputs(step)
              && var custom := CustomStep(wf.steps[FindStep(wf.steps, Shortname(step.tool.id)).value]);
              && doc.steps == [custom.(ins := Pruned(custom.ins, job))]
              && IsSubseq(doc.steps[0].ins, custom.ins)
              && doc.namespaces == KeepTruthy(wf.namespaces)
              && doc.schemas == KeepTruthy(wf.schemas)
              && doc.requirements == KeepTruthy(wf.requirements)
              && r.value.1 == SubWorkflowPath(cwlWorkflow, step.tool.id)
  {
    var inputs :- GetInputs(step);
    var outputs := GetOutputs(step);
    var found := FindStep(wf.steps, Shortname(step.tool.id));
    if found.None? then Err(NoSuchStep(step.tool.id))
    else
      var custom := CustomStep(wf.steps[found.value]);
      PrunedSound(custom.ins, job);
      var doc := SubWorkflow(CwlVersion(wf), "Workflow", inputs, outputs,
                             [custom.(ins := Pruned(custom.ins, job))],
                             KeepTruthy(wf.namespaces), KeepTruthy(wf.schemas), KeepTruthy(wf.requirements));
      Ok((doc, SubWorkflowPath(cwlWorkflow, step.tool.id)))
  }

  // ----------------------------------------------------------- publishing

  /** Whether some declared output has the shortname `k`. */
  predicate Declares(outputs: seq<string>, k: string)
  {
    exists i :: 0 <= i < |outputs| && Shortname(outputs[i]) == k
  }

  /** The promises a step publishes: each declared output's shortname mapped to the
   *  interpreter's value for its last segment, when there is one. */
  function Published(outputs: seq<string>, output: Option<PromiseMap>): (r: PromiseMap)
    ensures forall k :: k in r <==> Declares(outputs, k) && output.Some? && Strings.LastSegment(k, '/') in output.value
    ensures forall k :: k in r ==> (output.Some? && Strings.LastSegment(k, '/') in output.value
                                   && r[k] == output.value[Strings.LastSegment(k, '/')])
  {
    if outputs == [] then map[]
    else
      var front := outputs[..|outputs| - 1];
      var p := Published(front, output);
      var outId := Shortname(outputs[|outputs| - 1]);
      var joboutId := Strings.LastSegment(outId, '/');
      assert forall k :: Declares(outputs, k) <==> Declares(front, k) || k == outId by {
        forall k
          ensures Declares(outputs, k) <==> Declares(front, k) || k == outId
        {
          if Declares(front, k) {
            var j :| 0 <= j < |front| && Shortname(front[j]) == k;
            assert outputs[j] == front[j];
          }
          if Declares(outputs, k) && k != outId {
            var j :| 0 <= j < |outputs| && Shortname(outputs[j]) == k;
            assert front[j] == outputs[j];
          }
          if k == outId {
            assert Shortname(outputs[|outputs| - 1]) == k;
          }
        }
      }
      if output.Some? && joboutId in output.value then p[outId := output.value[joboutId]] else p
  }

  /** The publishing loop: for each declared output, copy the interpreter's value if
   *  it has one and skip the output otherwise. */
  method Publish(outputs: seq<string>, output: Option<PromiseMap>) returns (promises: PromiseMap)
    ensures promises == Published(outputs, output)
  {
    promises := map[];
    var i := 0;
    while i < |outputs|
      invariant 0 <= i <= |outputs|
      invariant promises == Published(outputs[..i], output)
    {
      var outId := Shortname(outputs[i]);
      var joboutId := Strings.LastSegment(outId, '/');
      if output.Some? && joboutId in output.value {
        promises := promises[outId := output.value[joboutId]];
      }
      assert outputs[..i + 1][..i] == outputs[..i];
      i := i + 1;
    }
    assert outputs[..|outputs|] == outputs;
  }

  /** Each declared output is published exactly when the interpreter produced a value
   *  under its local name, and then with that value. */
  lemma PublishedPerOutput(outputs: seq<string>, output: Option<PromiseMap>, i: nat)
    requires i < |outputs|
    ensures (Shortname(outputs[i]) in Published(outputs, output))
            <==> (output.Some? && LocalName(outputs[i]) in output.value)
    ensures (Shortname(outputs[i]) in Published(outputs, output))
            ==> Published(outputs, output)[Shortname(outputs[i])] == output.value[LocalName(outputs[i])]
  {
    assert Declares(outputs, Shortname(outputs[i]));
  }

  /** Each published value is what the interpreter produced for the synthesised
   *  workflow output bound to that key. */
  lemma PublishReadsSynthesizedOutputs(step: StepNode, output: PromiseMap, k: string)
    requires step.outputs == step.tool.out
    requires k in Published(step.outputs, Some(output))
    ensures exists j :: 0 <= j < |GetOutputs(step)| && GetOutputs(step)[j].outputSource == k
              && Published(step.outputs, Some(output))[k] == output[GetOutputs(step)[j].id]
  {
    var j :| 0 <= j < |step.outputs| && Shortname(step.outputs[j]) == k;
    assert GetOutputs(step)[j].outputSource == k;
  }

  // ------------------------------------------------------------- execute

  /** The left fold of `merge` over the upstream promise stores. */
  function FoldPromises(ups: seq<Upstream>): PromiseMap
  {
    if ups == [] then map[]
    else MergeFields(FoldPromises(ups[..|ups| - 1]), ups[|ups| - 1].promises)
  }

  /** The output folder after the upstream loop: that of the last record carrying one,
   *  or the folder the operator already had. */
  function LastOutdir(ups: seq<Upstream>, current: Json): Json
  {
    if ups == [] then current
    else if ups[|ups| - 1].outdir.Some? then ups[|ups| - 1].outdir.value
    else LastOutdir(ups[..|ups| - 1], current)
  }

  /** Every key any upstream published is in the merged store, and nothing else. */
  lemma {:induction false} FoldPromisesKeys(ups: seq<Upstream>)
    ensures forall k :: k in FoldPromises(ups) <==> exists i :: 0 <= i < |ups| && k in ups[i].promises
  {
    if ups != [] {
      FoldPromisesKeys(ups[..|ups| - 1]);
      forall k | k in FoldPromises(ups)
        ensures exists i :: 0 <= i < |ups| && k in ups[i].promises
      {
        var front := ups[..|ups| - 1];
        if k !in ups[|ups| - 1].promises {
          assert k in FoldPromises(front);
          var i :| 0 <= i < |front| && k in front[i].promises;
          assert ups[i] == front[i];
        }
      }
      forall k | exists i :: 0 <= i < |ups| && k in ups[i].promises
        ensures k in FoldPromises(ups)
      {
        var i :| 0 <= i < |ups| && k in ups[i].promises;
        if i < |ups| - 1 {
          assert ups[..|ups| - 1][i] == ups[i];
        }
      }
    }
  }

  /** The output folder is the one of the last upstream record that has the key, even
   *  when that value is empty; without any such record it is unchanged. */
  lemma {:induction false} LastOutdirIsLast(ups: seq<Upstream>, current: Json)
    ensures (forall i :: 0 <= i < |ups| ==> ups[i].outdir.None?) ==> LastOutdir(ups, current) == current
    ensures forall i :: 0 <= i < |ups| && ups[i].outdir.Some?
              && (forall j :: i < j < |ups| ==> ups[j].outdir.None?)
              ==> LastOutdir(ups, current) == ups[i].outdir.value
  {
    if ups != [] {
      var n := |ups| - 1;
      var front := ups[..n];
      LastOutdirIsLast(front, current);
      assert forall i :: 0 <= i < |front| ==> front[i] == ups[i];
      if ups[n].outdir.None? {
        assert LastOutdir(ups, current) == LastOutdir(front, current);
        forall i | 0 <= i < |ups| && ups[i].outdir.Some? && (forall j :: i < j < |ups| ==> ups[j].outdir.None?)
          ensures LastOutdir(ups, current) == ups[i].outdir.value
        {
          assert i < n;
          assert forall j :: i < j < |front| ==> front[j] == ups[j];
        }
      }
    }
  }

  /** An upstream record with `/run1/out` followed by one whose folder is null leaves
   *  the folder null, so the step fails for want of an output folder. */
  lemma NullOutdirAfterRealOne(p1: PromiseMap, p2: PromiseMap, current: Json)
    ensures LastOutdir([Upstream(p1, Some(JStr("/run1/out"))), Upstream(p2, Some(JNull))], current) == JNull
    ensures !Truthy(LastOutdir([Upstream(p1, Some(JStr("/run1/out"))), Upstream(p2, Some(JNull))], current))
  {
  }

  /** Whether the interpreter's result counts as empty (`not output`). */
  predicate NoOutput(output: Option<PromiseMap>)
  {
    output.None? || output.value == map[]
  }

  /** The step protocol after the upstream fold: check the folder, synthesise, run, publish. */
  function RunStep(step: StepNode, wf: Workflow, cwlWorkflow: string, job: PromiseMap, outdir: Json,
                   interpret: (SubWorkflow, PromiseMap) -> InterpreterRun): (r: Result<StepResult, StepError>)
    ensures !Truthy(outdir) ==> r == Err(MissingOutdir)
    ensures r.Ok? ==> r.value.outdir == outdir
    ensures r.Ok? ==> forall k :: k in r.value.promises ==> Declares(step.outputs, k)
    ensures r.Ok? <==> (Truthy(outdir) && StepToWorkflow(wf, step, job, cwlWorkflow).Ok?
              && var run := interpret(StepToWorkflow(wf, step, job, cwlWorkflow).value.0, job);
                 !(NoOutput(run.output) && run.status == "permanentFail"))
    ensures r.Ok? ==>
              r.value.promises == Published(step.outputs, interpret(StepToWorkflow(wf, step, job, cwlWorkflow).value.0, job).output)
  {
    if !Truthy(outdir) then Err(MissingOutdir)
    else
      var built := StepToWorkflow(wf, step, job, cwlWorkflow);
      if built.Err? then Err(built.error)
      else
      var run := interpret(built.value.0, job);
      if NoOutput(run.output) && run.status == "permanentFail" then Err(PermanentFail)
      else Ok(StepResult(Published(step.outputs, run.output), outdir))
  }

  /** The operator object of one step; `outdir` is kept on it between runs. */
  class StepOperator {
    const step: StepNode
    const workflow: Workflow
    const cwlWorkflow: string
    var outdir: Json

    constructor (step: StepNode, workflow: Workflow, cwlWorkflow: string)
      ensures this.step == step && this.workflow == workflow && this.cwlWorkflow == cwlWorkflow
      ensures outdir == JNull
    {
      this.step := step;
      this.workflow := workflow;
      this.cwlWorkflow := cwlWorkflow;
      outdir := JNull;
    }

    /** The upstream loop of `execute`: merge each record's promises into the store and
     *  take its output folder when it has one. */
    method CollectUpstream(upstream: seq<Upstream>) returns (promises: PromiseMap)
      modifies this
      ensures promises == FoldPromises(upstream)
      ensures outdir == LastOutdir(upstream, old(outdir))
    {
      promises := map[];
      var i := 0;
      while i < |upstream|
        invariant 0 <= i <= |upstream|
        invariant promises == FoldPromises(upstream[..i])
        invariant outdir == LastOutdir(upstream[..i], old(outdir))
      {
        var data := upstream[i];
        promises := MergeFields(promises, data.promises);
        if data.outdir.Some? {
          outdir := data.outdir.value;
        }
        i := i + 1;
        assert upstream[..i][..i - 1] == upstream[..i - 1];
      }
      assert upstream[..|upstream|] == upstream;
    }

    /** `execute`: fold the upstream records, then synthesise the one-step workflow,
     *  hand the interpreter the merged store as its job object, and publish. */
    method Execute(upstream: seq<Upstream>, interpret: (SubWorkflow, PromiseMap) -> InterpreterRun)
      returns (r: Result<StepResult, StepError>)
      modifies this
      ensures outdir == LastOutdir(upstream, old(outdir))
      ensures r == RunStep(step, workflow, cwlWorkflow, FoldPromises(upstream), outdir, interpret)
    {
      var promises := CollectUpstream(upstream);
      if !Truthy(outdir) {
        return Err(MissingOutdir);
      }
      var jobobj := promises;
      var inputs := GetInputs(step);
      if inputs.Err? {
        return Err(inputs.error);
      }
      var outputs := GetOutputs(step);
      var custom := GetCustomStep(workflow, step);
      if custom.Err? {
        return Err(custom.error);
      }
      var ins := PruneInputs(custom.value.ins, jobobj);
      var doc := SubWorkflow(CwlVersion(workflow), "Workflow", inputs.value, outputs,
                             [custom.value.(ins := ins)],
                             KeepTruthy(workflow.namespaces), KeepTruthy(workflow.schemas),
                             KeepTruthy(workflow.requirements));
      assert StepToWorkflow(workflow, step, jobobj, cwlWorkflow) == Ok((doc, SubWorkflowPath(cwlWorkflow, step.tool.id)));
      var run := interpret(doc, jobobj);
      if NoOutput(run.output) && run.status == "permanentFail" {
        return Err(PermanentFail);
      }
      var published := Publish(step.outputs, run.output);
      r := Ok(StepResult(published, outdir));
    }
  }
}
