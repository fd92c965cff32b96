/** The orchestration engine of the Python SDK (sdk/py/src/switchboard/workflow.py,
    class Workflow): a resumable state machine that is re-entered once per invocation,
    rebuilds where the run stands from the invocation context and the stored state,
    and decides whether the next step of the user's orchestration is added, retried,
    skipped or waited for.

    Python mutates the engine, the stored state and the context in place; here every
    operation returns the new values. `curr_step` is an alias of one element of
    `state.steps`, so it is kept as an index into that list. The database is a map
    from (workflow name, run id) to stored states plus the last id handed out. */
module Workflow {
  import opened Wrappers

  /** A decoded JSON value, as `json.loads` produces it. Numbers are integers. */
  datatype Json =
    | JNull
    | JBool(b: bool)
    | JNum(n: int)
    | JStr(s: string)
    | JArr(items: seq<Json>)
    | JObj(fields: map<string, Json>)

  /** Python truthiness of a decoded JSON value: the context flags are only ever
      tested with `if` and `not`. */
  predicate Truthy(j: Json) {
    match j
    case JNull => false
    case JBool(b) => b
    case JNum(n) => n != 0
    case JStr(s) => |s| > 0
    case JArr(items) => |items| > 0
    case JObj(fields) => |fields| > 0
  }

  /** `ids`: the run id, the step id and the task id (-1 outside a parallel step). */
  datatype Ids = Ids(run: int, step: int, task: int)

  /** A brand new trigger carries exactly these ids. */
  const FreshIds := Ids(-1, -1, -1)

  datatype Context = Context(ids: Ids, executed: bool, completed: bool, success: bool, cache: map<string, Json>)

  /** One task of a parallel step. */
  datatype Task = Task(taskKey: string, taskId: int, executed: bool, completed: bool, success: bool, retries: int)

  /** An element of `state.steps`: a sequential step running one task, or a parallel
      step whose flags summarise its tasks. */
  datatype StepNode =
    | Single(stepId: int, stepName: string, taskKey: string, taskId: int,
             executed: bool, completed: bool, success: bool, retries: int)
    | Parallel(stepId: int, stepName: string, tasks: seq<Task>,
               executed: bool, completed: bool, success: bool)

  datatype State = State(name: string, runId: int, steps: seq<StepNode>, cache: map<string, Json>)

  datatype Status = InProcess | Completed | OutOfRetries

  datatype StepType = CallStep | ParallelStep

  /** The fields of a Workflow instance the engine reads and writes. `cur` is the index
      of `curr_step` in `state.steps`. */
  datatype Engine = Engine(name: string, stepIdx: int, stepCnt: nat, cur: Option<nat>, status: Status,
                           context: Context, state: State)

  /** The state table and the id counter of the database. */
  datatype Store = Store(states: map<(string, int), State>, lastId: int)

  /** `curr_step` refers to an element of the step list. Python's alias cannot dangle;
      every operation below keeps the index in range. */
  predicate Valid(e: Engine) {
    e.cur.Some? ==> e.cur.value < |e.state.steps|
  }

  // ---------------------------------------------------------------------------
  // _get_context

  const RequiredFields: seq<string> := ["ids", "executed", "completed", "success", "cache"]

  function MissingMsg(field: string): string {
    "required field '" + field + "' not present in context."
  }

  const IdsMsg := "context ids should have the run_id (0 idx), step_id (1 idx), and the task_id (2 idx)"

  const CacheMsg := "The 'cache' field should be a dictionary like object."

  /** The decoded context has no `keys()`: it is not an object. Python raises an
      `AttributeError` there, whose text names the value's type; this is a fixed stand-in. */
  const NotObjectMsg := "context is not a JSON object"

  /** The first of `fields` that `obj` lacks, in the order the checks run. */
  function FirstMissing(fields: seq<string>, obj: map<string, Json>): (r: Option<nat>)
    ensures r.Some? ==> r.value < |fields| && fields[r.value] !in obj
    ensures r.Some? ==> forall j | 0 <= j < r.value :: fields[j] in obj
    ensures r.None? ==> forall j | 0 <= j < |fields| :: fields[j] in obj
  {
    if |fields| == 0 then None
    else if fields[0] !in obj then Some(0)
    else match FirstMissing(fields[1..], obj)
      case None => None
      case Some(k) => Some(k + 1)
  }

  /** Three integer ids. */
  predicate IdsWellFormed(j: Json) {
    j.JArr? && |j.items| == 3 && j.items[0].JNum? && j.items[1].JNum? && j.items[2].JNum?
  }

  function IdsOf(j: Json): Ids
    requires IdsWellFormed(j)
  {
    Ids(j.items[0].n, j.items[1].n, j.items[2].n)
  }

  /** _get_context: the decoded invocation context must carry all five required
      fields, three ids and an object cache; each missing field is reported by name,
      the first one in check order. A fresh trigger counts as executed, completed and
      successful whatever its flags say; otherwise each flag is the truthiness of the
      supplied value. The cache is the supplied one. */
  function GetContext(raw: Json): (r: Result<Context>)
    ensures r.Ok? <==>
              raw.JObj? && (forall f | f in RequiredFields :: f in raw.fields)
              && IdsWellFormed(raw.fields["ids"]) && raw.fields["cache"].JObj?
    ensures !raw.JObj? ==> r == Err(NotObjectMsg)
    ensures raw.JObj? ==>
              forall i | 0 <= i < |RequiredFields| && RequiredFields[i] !in raw.fields
                         && (forall j | 0 <= j < i :: RequiredFields[j] in raw.fields) ::
                r == Err(MissingMsg(RequiredFields[i]))
    ensures r.Ok? ==> r.value.ids == IdsOf(raw.fields["ids"]) && r.value.cache == raw.fields["cache"].fields
    ensures r.Ok? && r.value.ids == FreshIds ==> r.value.executed && r.value.completed && r.value.success
    ensures r.Ok? && r.value.ids != FreshIds ==>
              r.value.executed == Truthy(raw.fields["executed"])
              && r.value.completed == Truthy(raw.fields["completed"])
              && r.value.success == Truthy(raw.fields["success"])
  {
    if !raw.JObj? then Err(NotObjectMsg)
    else match FirstMissing(RequiredFields, raw.fields)
      case Some(k) =>
        assert forall i | 0 <= i < |RequiredFields| && RequiredFields[i] !in raw.fields
                          && (forall j | 0 <= j < i :: RequiredFields[j] in raw.fields) :: i == k;
        Err(MissingMsg(RequiredFields[k]))
      case None =>
        var obj := raw.fields;
        assert RequiredFields[0] in obj && RequiredFields[1] in obj && RequiredFields[2] in obj;
        assert RequiredFields[3] in obj && RequiredFields[4] in obj;
        if !IdsWellFormed(obj["ids"]) then Err(IdsMsg)
        else
          var ids := IdsOf(obj["ids"]);
          if !obj["cache"].JObj? then Err(CacheMsg)
          else if ids == FreshIds then Ok(Context(ids, true, true, true, obj["cache"].fields))
          else Ok(Context(ids, Truthy(obj["executed"]), Truthy(obj["completed"]), Truthy(obj["success"]),
                          obj["cache"].fields))
  }

  /** The context as a queued task message carries it back: the five fields in the
      layout documented beside the Context schema, next to any other fields of the
      message (the workflow name and the task key). */
  function ContextJson(c: Context, extra: map<string, Json>): Json {
    JObj(extra + map["ids" := JArr([JNum(c.ids.run), JNum(c.ids.step), JNum(c.ids.task)]),
                     "executed" := JBool(c.executed), "completed" := JBool(c.completed),
                     "success" := JBool(c.success), "cache" := JObj(c.cache)])
  }

  /** Reading back a context written in that layout gives the context again, except
      that a fresh trigger's flags read as set; the other fields of the message do not
      matter. */
  lemma ContextRoundTrip(c: Context, extra: map<string, Json>)
    ensures GetContext(ContextJson(c, extra))
            == Ok(if c.ids == FreshIds then c.(executed := true, completed := true, success := true) else c)
  {
    var raw := ContextJson(c, extra);
    assert forall f | f in RequiredFields :: f in raw.fields;
    assert IdsOf(raw.fields["ids"]) == c.ids;
  }

  // ---------------------------------------------------------------------------
  // _init_state

  /** What `__init__` holds after _init_state: the state, the possibly updated context,
      `step_idx`, `curr_step`, and the database after a fresh id was drawn. */
  datatype Resumed = Resumed(state: State, context: Context, stepIdx: int, cur: Option<nat>, store: Store)

  const EmptyStepsMsg := "stored state has no steps"

  const StepIdMismatchMsg := "step id mismatch"

  const NotParallelMsg := "the context names a task but the current step is not a parallel step"

  const NotSingleMsg := "the context names no task but the current step is a parallel step"

  /** Python's text for `min` over an empty list. */
  const EmptyMinMsg := "min() arg is an empty sequence"

  /** The stored step has a flag set that the invocation context clears: the
      invocation cannot come from this step's current attempt and is ignored. */
  predicate Stale(node: StepNode, ctx: Context) {
    || (node.executed && !ctx.executed)
    || (node.completed && !ctx.completed)
    || (node.success && !ctx.success)
  }

  /** A task takes up the flags the context sets; it never loses one. */
  function Absorb(t: Task, ctx: Context): Task {
    t.(executed := t.executed || ctx.executed, completed := t.completed || ctx.completed,
       success := t.success || ctx.success)
  }

  /** The index of the first task with the given id. */
  function FirstTask(tasks: seq<Task>, id: int): (r: Option<nat>)
    ensures r.Some? ==> r.value < |tasks| && tasks[r.value].taskId == id
    ensures r.Some? ==> forall j | 0 <= j < r.value :: tasks[j].taskId != id
    ensures r.None? ==> forall j | 0 <= j < |tasks| :: tasks[j].taskId != id
  {
    if |tasks| == 0 then None
    else if tasks[0].taskId == id then Some(0)
    else match FirstTask(tasks[1..], id)
      case None => None
      case Some(k) => Some(k + 1)
  }

  /** The loop that updates the first task whose id is the context's task id. */
  function MarkTask(tasks: seq<Task>, ctx: Context): (r: seq<Task>)
    ensures |r| == |tasks|
    ensures forall i | 0 <= i < |tasks| ::
              r[i] == (if FirstTask(tasks, ctx.ids.task) == Some(i) then Absorb(tasks[i], ctx) else tasks[i])
  {
    match FirstTask(tasks, ctx.ids.task)
    case None => tasks
    case Some(i) => tasks[i := Absorb(tasks[i], ctx)]
  }

  predicate AllExecuted(tasks: seq<Task>) {
    forall i | 0 <= i < |tasks| :: tasks[i].executed
  }

  predicate AllCompleted(tasks: seq<Task>) {
    forall i | 0 <= i < |tasks| :: tasks[i].completed
  }

  predicate AllSucceeded(tasks: seq<Task>) {
    forall i | 0 <= i < |tasks| :: tasks[i].success
  }

  /** The same step with its three flags replaced. */
  function WithFlags(node: StepNode, executed: bool, completed: bool, success: bool): StepNode {
    match node
    case Single(id, name, key, taskId, _, _, _, retries) => Single(id, name, key, taskId, executed, completed, success, retries)
    case Parallel(id, name, tasks, _, _, _) => Parallel(id, name, tasks, executed, completed, success)
  }

  /** The current step after the invocation context was merged into it, or the error
      raised on the way. */
  function MergeContext(node: StepNode, ctx: Context): (r: Result<StepNode>)
    ensures r.Ok? ==> r.value.stepId == node.stepId && r.value.stepName == node.stepName
    ensures r.Ok? <==> (if ctx.ids.task >= 0 then node.Parallel? && |node.tasks| > 0 else node.Single?)
    ensures r.Ok? && node.Single? ==>
              r.value == WithFlags(node, node.executed || ctx.executed, node.completed || ctx.completed,
                                   node.success || ctx.success)
    ensures r.Ok? && node.Parallel? ==>
              r.value.Parallel? && r.value.tasks == MarkTask(node.tasks, ctx)
              && r.value.executed == AllExecuted(r.value.tasks)
              && r.value.completed == AllCompleted(r.value.tasks)
              && r.value.success == AllSucceeded(r.value.tasks)
  {
    if ctx.ids.task >= 0 then
      if !node.Parallel? then Err(NotParallelMsg)
      else if |node.tasks| == 0 then Err(EmptyMinMsg)
      else
        var tasks := MarkTask(node.tasks, ctx);
        Ok(Parallel(node.stepId, node.stepName, tasks, AllExecuted(tasks), AllCompleted(tasks), AllSucceeded(tasks)))
    else if !node.Single? then Err(NotSingleMsg)
    else
      Ok(WithFlags(node, node.executed || ctx.executed, node.completed || ctx.completed, node.success || ctx.success))
  }

  /** The context after a parallel step was merged: its flags are the step's. */
  function Summarised(node: StepNode, ctx: Context): Context {
    if node.Parallel? then ctx.(executed := node.executed, completed := node.completed, success := node.success)
    else ctx
  }

  /** _init_state. With no stored state for the context's run id a new run starts: the
      database hands out the next id, the state is empty, and the context's run id is
      rewritten to it. Otherwise the stored state must have steps and its last step must
      be the step the context names. The context's cache entries overwrite the stored
      ones and the other stored entries stay; the last step becomes current. A stale
      invocation changes no step; any other merges its flags into the current step. */
  function InitState(name: string, ctx: Context, store: Store): (r: Result<Resumed>)
    ensures r.Ok? <==>
              || (name, ctx.ids.run) !in store.states
              || var stored := store.states[(name, ctx.ids.run)];
                 && |stored.steps| > 0 && stored.steps[|stored.steps| - 1].stepId == ctx.ids.step
                 && (Stale(stored.steps[|stored.steps| - 1], ctx) || MergeContext(stored.steps[|stored.steps| - 1], ctx).Ok?)
    ensures (name, ctx.ids.run) in store.states && r.Err? && |store.states[(name, ctx.ids.run)].steps| > 0
            && store.states[(name, ctx.ids.run)].steps[|store.states[(name, ctx.ids.run)].steps| - 1].stepId == ctx.ids.step ==>
              r.msg == MergeContext(store.states[(name, ctx.ids.run)].steps[|store.states[(name, ctx.ids.run)].steps| - 1], ctx).msg
    ensures (name, ctx.ids.run) !in store.states ==>
              r.Ok? && r.value.state == State(name, store.lastId + 1, [], map[])
              && r.value.store == store.(lastId := store.lastId + 1)
              && r.value.context == ctx.(ids := ctx.ids.(run := store.lastId + 1))
              && r.value.stepIdx == 0 && r.value.cur == None
    ensures (name, ctx.ids.run) in store.states ==>
              var stored := store.states[(name, ctx.ids.run)];
              && (|stored.steps| == 0 ==> r == Err(EmptyStepsMsg))
              && (|stored.steps| > 0 && stored.steps[|stored.steps| - 1].stepId != ctx.ids.step ==>
                    r == Err(StepIdMismatchMsg))
              && (r.Ok? ==>
                    && r.value.store == store
                    && r.value.state.name == stored.name && r.value.state.runId == stored.runId
                    && |r.value.state.steps| == |stored.steps| > 0
                    && r.value.stepIdx == |stored.steps| - 1 && r.value.cur == Some(|stored.steps| - 1)
                    && stored.steps[|stored.steps| - 1].stepId == ctx.ids.step
                    && r.value.state.steps[..|stored.steps| - 1] == stored.steps[..|stored.steps| - 1]
                    && r.value.state.cache.Keys == stored.cache.Keys + ctx.cache.Keys
                    && (forall k | k in r.value.state.cache ::
                          r.value.state.cache[k] == if k in ctx.cache then ctx.cache[k] else stored.cache[k]))
    ensures (name, ctx.ids.run) in store.states && r.Ok? ==>
              var stored := store.states[(name, ctx.ids.run)];
              var last := stored.steps[|stored.steps| - 1];
              if Stale(last, ctx) then r.value.state.steps == stored.steps && r.value.context == ctx
              else MergeContext(last, ctx).Ok?
                   && r.value.state.steps[|stored.steps| - 1] == MergeContext(last, ctx).value
                   && r.value.context == Summarised(MergeContext(last, ctx).value, ctx)
  {
    if (name, ctx.ids.run) !in store.states then
      var id := store.lastId + 1;
      Ok(Resumed(State(name, id, [], map[]), ctx.(ids := ctx.ids.(run := id)), 0, None, store.(lastId := id)))
    else
      var stored := store.states[(name, ctx.ids.run)];
      if |stored.steps| == 0 then Err(EmptyStepsMsg)
      else
        var idx := |stored.steps| - 1;
        var merged := stored.(cache := stored.cache + ctx.cache);
        var node := stored.steps[idx];
        if node.stepId != ctx.ids.step then Err(StepIdMismatchMsg)
        else if Stale(node, ctx) then Ok(Resumed(merged, ctx, idx, Some(idx), store))
        else
          match MergeContext(node, ctx)
          case Err(e) => Err(e)
          case Ok(updated) =>
            Ok(Resumed(merged.(steps := stored.steps[idx := updated]), Summarised(updated, ctx), idx, Some(idx), store))
  }

  // ---------------------------------------------------------------------------
  // __init__

  /** Workflow.__init__ on a decoded context: counters at zero, status in process, then
      _get_context and _init_state. The engine it builds has `step_idx` at the last
      stored step (0 for a new run) and `curr_step` on that step when there is one. */
  function New(name: string, raw: Json, store: Store): (r: Result<(Engine, Store)>)
    ensures r.Ok? <==> GetContext(raw).Ok? && InitState(name, GetContext(raw).value, store).Ok?
    ensures r.Ok? ==>
              var e := r.value.0;
              && Valid(e) && e.name == name && e.stepCnt == 0 && e.status == InProcess
              && e.stepIdx == Max(|e.state.steps| - 1, 0)
              && (|e.state.steps| > 0 <==> e.cur.Some?)
              && (|e.state.steps| > 0 ==> e.cur.value == |e.state.steps| - 1)
              && (|e.state.steps| > 0 ==> e.context.ids.step == e.state.steps[|e.state.steps| - 1].stepId)
  {
    var ctx :- GetContext(raw);
    var res :- InitState(name, ctx, store);
    Ok((Engine(name, res.stepIdx, 0, res.cur, InProcess, res.context, res.state), res.store))
  }

  function Max(a: int, b: int): int {
    if a < b then b else a
  }

  // ---------------------------------------------------------------------------
  // _generate_step_id, _add_step

  const StepIdxMsg := "The step_idx is incorrect"

  /** Python's texts for an index past the end of the task tuple and of the step list. */
  const TupleIndexMsg := "tuple index out of range"

  const ListIndexMsg := "list index out of range"

  /** _generate_step_id: one past the step id of the context. */
  function NextStepId(ctx: Context): int {
    ctx.ids.step + 1
  }

  /** The tasks of a new parallel step, numbered in argument order. */
  function NewTasks(keys: seq<string>, retries: int): (r: seq<Task>)
    ensures |r| == |keys|
    ensures forall i | 0 <= i < |keys| :: r[i] == Task(keys[i], i, false, false, false, retries)
  {
    seq(|keys|, i requires 0 <= i < |keys| => Task(keys[i], i, false, false, false, retries))
  }

  /** The step _add_step appends. `retries` is the step's default retry budget, which
      workflow.py does not define. */
  function NewStep(kind: StepType, id: int, stepName: string, tasks: seq<string>, retries: int): StepNode
    requires kind == CallStep ==> |tasks| > 0
  {
    if kind == ParallelStep then Parallel(id, stepName, NewTasks(tasks, retries), false, false, false)
    else Single(id, stepName, tasks[0], -1, false, false, false, retries)
  }

  /** _add_step: only when `step_idx` is at the last step (or 0 for an empty list)
      does it append exactly one step, numbered one past the context's step id, with
      every flag clear; a sequential step needs a task. `curr_step` becomes the step at
      `step_cnt`, and the context moves to that step: run id, its step id, no task,
      flags clear, cache kept. Nothing else changes. */
  function AddStep(e: Engine, kind: StepType, stepName: string, tasks: seq<string>, retries: int): (r: Result<Engine>)
    ensures r.Ok? <==>
              e.stepIdx == Max(|e.state.steps| - 1, 0) && (kind == CallStep ==> |tasks| > 0)
              && e.stepCnt <= |e.state.steps|
    ensures r.Ok? ==>
              var steps := r.value.state.steps;
              && |steps| == |e.state.steps| + 1 && steps[..|e.state.steps|] == e.state.steps
              && steps[|e.state.steps|].stepId == e.context.ids.step + 1
              && steps[|e.state.steps|].stepName == stepName
              && !steps[|e.state.steps|].executed && !steps[|e.state.steps|].completed
              && !steps[|e.state.steps|].success
    ensures r.Ok? && kind == ParallelStep ==>
              var added := r.value.state.steps[|e.state.steps|];
              && added.Parallel? && |added.tasks| == |tasks|
              && forall i | 0 <= i < |tasks| :: added.tasks[i] == Task(tasks[i], i, false, false, false, retries)
    ensures r.Ok? && kind == CallStep ==>
              r.value.state.steps[|e.state.steps|] == Single(e.context.ids.step + 1, stepName, tasks[0], -1, false, false, false, retries)
    ensures r.Ok? ==>
              && Valid(r.value) && r.value.cur == Some(e.stepCnt)
              && r.value.context == Context(Ids(e.state.runId, r.value.state.steps[e.stepCnt].stepId, -1),
                                            false, false, false, e.context.cache)
              && r.value.name == e.name && r.value.stepIdx == e.stepIdx && r.value.stepCnt == e.stepCnt
              && r.value.status == e.status && r.value.state.name == e.state.name
              && r.value.state.runId == e.state.runId && r.value.state.cache == e.state.cache
  {
    if e.stepIdx != Max(|e.state.steps| - 1, 0) then Err(StepIdxMsg)
    else if kind == CallStep && |tasks| == 0 then Err(TupleIndexMsg)
    else
      var steps := e.state.steps + [NewStep(kind, NextStepId(e.context), stepName, tasks, retries)];
      if e.stepCnt >= |steps| then Err(ListIndexMsg)
      else
        Ok(e.(state := e.state.(steps := steps), cur := Some(e.stepCnt),
              context := Context(Ids(e.state.runId, steps[e.stepCnt].stepId, -1), false, false, false, e.context.cache)))
  }

  // ---------------------------------------------------------------------------
  // _needs_retry, _is_waiting

  const NoCurrentStepMsg := "there is no current step"

  const NotCallMsg := "a call names a parallel step"

  const NotParallelCallMsg := "a parallel call names a sequential step"

  const NoTaskMsg := "no task id matches the task id in the context"

  /** The index of the last task with the given id. */
  function LastTask(tasks: seq<Task>, id: int): (r: Option<nat>)
    ensures r.Some? ==> r.value < |tasks| && tasks[r.value].taskId == id
    ensures r.Some? ==> forall j | r.value < j < |tasks| :: tasks[j].taskId != id
    ensures r.None? ==> forall j | 0 <= j < |tasks| :: tasks[j].taskId != id
  {
    if |tasks| == 0 then None
    else if tasks[|tasks| - 1].taskId == id then Some(|tasks| - 1)
    else LastTask(tasks[..|tasks| - 1], id)
  }

  /** Every task with the given id spends one retry. */
  function SpendRetry(tasks: seq<Task>, id: int): (r: seq<Task>)
    ensures |r| == |tasks|
    ensures forall i | 0 <= i < |tasks| ::
              r[i] == if tasks[i].taskId == id then tasks[i].(retries := tasks[i].retries - 1) else tasks[i]
  {
    seq(|tasks|, i requires 0 <= i < |tasks| =>
      if tasks[i].taskId == id then tasks[i].(retries := tasks[i].retries - 1) else tasks[i])
  }

  /** The engine with step `i` replaced. */
  function WithStep(e: Engine, i: nat, node: StepNode): Engine
    requires i < |e.state.steps|
  {
    e.(state := e.state.(steps := e.state.steps[i := node]))
  }

  /** The last attempt ran to completion and failed. */
  predicate AttemptFailed(ctx: Context) {
    ctx.executed && ctx.completed && !ctx.success
  }

  /** _needs_retry on `curr_step`. Unless the context reports a completed, failed
      attempt nothing changes and the answer is no. After a failed attempt, a
      sequential step, or every task of a parallel step carrying the context's task
      id, spends exactly one retry, and the answer is whether the budget read before
      spending (the last matching task's, for a parallel step) was positive. */
  function NeedsRetry(e: Engine, kind: StepType): (r: Result<(bool, Engine)>)
    requires Valid(e)
    ensures e.cur.None? ==> r.Err?
    ensures e.cur.Some? && !AttemptFailed(e.context) ==> r == Ok((false, e))
    ensures r.Ok? ==>
              && e.cur.Some? && Valid(r.value.1) && |r.value.1.state.steps| == |e.state.steps|
              && r.value.1 == WithStep(e, e.cur.value, r.value.1.state.steps[e.cur.value])
    ensures e.cur.Some? && AttemptFailed(e.context) && kind == CallStep ==>
              var node := e.state.steps[e.cur.value];
              && (r.Ok? <==> node.Single?)
              && (r.Ok? ==> r.value.0 == (node.retries > 0)
                            && r.value.1.state.steps[e.cur.value] == node.(retries := node.retries - 1))
    ensures e.cur.Some? && AttemptFailed(e.context) && kind == ParallelStep ==>
              var node := e.state.steps[e.cur.value];
              var id := e.context.ids.task;
              && (r.Ok? <==> node.Parallel? && exists i | 0 <= i < |node.tasks| :: node.tasks[i].taskId == id)
              && (r.Ok? ==>
                    var after := r.value.1.state.steps[e.cur.value];
                    && after.Parallel? && after.stepId == node.stepId && after.stepName == node.stepName
                    && after.executed == node.executed && after.completed == node.completed
                    && after.success == node.success
                    && |after.tasks| == |node.tasks|
                    && (forall i | 0 <= i < |node.tasks| ::
                          after.tasks[i].retries == node.tasks[i].retries - (if node.tasks[i].taskId == id then 1 else 0)
                          && after.tasks[i].(retries := 0) == node.tasks[i].(retries := 0))
                    && r.value.0 == (node.tasks[LastTask(node.tasks, id).value].retries > 0))
  {
    if e.cur.None? then Err(NoCurrentStepMsg)
    else if !AttemptFailed(e.context) then Ok((false, e))
    else
      var i := e.cur.value;
      var node := e.state.steps[i];
      match kind
      case CallStep =>
        if !node.Single? then Err(NotCallMsg)
        else Ok((node.retries > 0, WithStep(e, i, node.(retries := node.retries - 1))))
      case ParallelStep =>
        if !node.Parallel? then Err(NotParallelCallMsg)
        else match LastTask(node.tasks, e.context.ids.task)
          case None => Err(NoTaskMsg)
          case Some(j) =>
            var spent := SpendRetry(node.tasks, e.context.ids.task);
            Ok((node.tasks[j].retries > 0, WithStep(e, i, node.(tasks := spent))))
  }

  /** The current step is sequential and the context reports a failed attempt of it:
      the situation in which a call's _needs_retry spends a retry. */
  predicate RetryPending(e: Engine) {
    Valid(e) && e.cur.Some? && e.state.steps[e.cur.value].Single? && AttemptFailed(e.context)
  }

  /** The answers _needs_retry gives to `k` failed attempts of the current sequential
      step in a row, each one starting from the state the previous one left. */
  function RetryAnswers(e: Engine, k: nat): seq<bool>
    requires RetryPending(e)
    decreases k
  {
    if k == 0 then []
    else
      var (retry, after) := NeedsRetry(e, CallStep).value;
      [retry] + RetryAnswers(after, k - 1)
  }

  /** A step's retry budget is what it grants: of `k` failed attempts in a row the first
      `retries` are retried and every later one is not, so a step with no budget is
      never retried. */
  lemma {:induction false} RetriesFollowBudget(e: Engine, k: nat)
    requires RetryPending(e)
    ensures var budget := e.state.steps[e.cur.value].retries;
            RetryAnswers(e, k) == seq(k, i => i < budget)
    decreases k
  {
    if k > 0 {
      var budget := e.state.steps[e.cur.value].retries;
      var after := NeedsRetry(e, CallStep).value.1;
      assert after.state.steps[after.cur.value].retries == budget - 1;
      RetriesFollowBudget(after, k - 1);
      assert RetryAnswers(e, k) == [0 < budget] + seq(k - 1, i => i < budget - 1);
    }
  }

  /** _is_waiting: the current attempt has not reported completion. */
  predicate IsWaiting(e: Engine) {
    !e.context.completed
  }

  // ---------------------------------------------------------------------------
  // _determine_step_execution, _next, done

  /** Some step of the state carries this name. */
  predicate Named(steps: seq<StepNode>, stepName: string) {
    exists i | 0 <= i < |steps| :: steps[i].stepName == stepName
  }

  /** _determine_step_execution. While waiting it answers no and changes nothing. A
      name not yet in the state is appended as a new step and answered yes. A known
      name is answered yes only when it is the current step and _needs_retry says
      so. A yes therefore means a new step or a retry of the current one after a
      failed attempt; a no never adds a step. */
  function DetermineStepExecution(e: Engine, kind: StepType, stepName: string, tasks: seq<string>, retries: int)
    : (r: Result<(bool, Engine)>)
    requires Valid(e)
    ensures IsWaiting(e) ==> r == Ok((false, e))
    ensures r.Ok? ==> Valid(r.value.1)
    ensures !IsWaiting(e) && !Named(e.state.steps, stepName) ==>
              (r.Ok? <==> AddStep(e, kind, stepName, tasks, retries).Ok?)
              && (r.Ok? ==> r.value == (true, AddStep(e, kind, stepName, tasks, retries).value))
    ensures !IsWaiting(e) && Named(e.state.steps, stepName) && e.cur.Some?
            && e.state.steps[e.cur.value].stepName == stepName ==>
              r == NeedsRetry(e, kind)
    ensures !IsWaiting(e) && Named(e.state.steps, stepName)
            && !(e.cur.Some? && e.state.steps[e.cur.value].stepName == stepName) ==>
              r == Ok((false, e))
    ensures r.Ok? && r.value.0 ==>
              || (!Named(e.state.steps, stepName) && |r.value.1.state.steps| == |e.state.steps| + 1
                  && r.value.1.state.steps[|e.state.steps|].stepName == stepName)
              || (e.cur.Some? && e.state.steps[e.cur.value].stepName == stepName && AttemptFailed(e.context))
    ensures r.Ok? && !r.value.0 ==>
              |r.value.1.state.steps| == |e.state.steps|
              && forall i | 0 <= i < |e.state.steps| ::
                   r.value.1.state.steps[i].stepName == e.state.steps[i].stepName
  {
    if IsWaiting(e) then Ok((false, e))
    else if Named(e.state.steps, stepName) then
      if e.cur.Some? && e.state.steps[e.cur.value].stepName == stepName then NeedsRetry(e, kind)
      else Ok((false, e))
    else
      var added :- AddStep(e, kind, stepName, tasks, retries);
      Ok((true, added))
  }

  /** _next: move on to the next step of the orchestration. */
  function Next(e: Engine): (r: Engine)
    ensures r.stepCnt == e.stepCnt + 1 && r.(stepCnt := e.stepCnt) == e
  {
    e.(stepCnt := e.stepCnt + 1)
  }

  /** `k` consecutive _next calls. */
  function Replay(e: Engine, k: nat): Engine
    decreases k
  {
    if k == 0 then e else Replay(Next(e), k - 1)
  }

  /** Replaying the steps before `step_idx` only advances the counter: after
      `step_idx - step_cnt` calls the engine stands at the current step with its state,
      context and `curr_step` untouched. */
  lemma {:induction false} ReplayReachesCurrentStep(e: Engine, k: nat)
    requires e.stepCnt + k == e.stepIdx
    ensures Replay(e, k).stepCnt == e.stepIdx
    ensures Replay(e, k) == e.(stepCnt := e.stepIdx)
    decreases k
  {
    if k > 0 {
      ReplayReachesCurrentStep(Next(e), k - 1);
    }
  }

  /** `k` _next calls move `step_cnt` on by `k` and change nothing else. */
  lemma {:induction false} ReplayOnlyCounts(e: Engine, k: nat)
    ensures Replay(e, k) == e.(stepCnt := e.stepCnt + k)
    decreases k
  {
    if k > 0 {
      ReplayOnlyCounts(Next(e), k - 1);
    }
  }

  /** A resumed run that replays every stored step, the current one included, stands
      one past the end of the step list, where _add_step makes the step it appends the
      current one and moves the context to it. */
  lemma ReplayThenAdd(e: Engine, kind: StepType, stepName: string, tasks: seq<string>, retries: int)
    requires e.stepCnt == 0 && |e.state.steps| > 0 && e.stepIdx == |e.state.steps| - 1
    requires kind == CallStep ==> |tasks| > 0
    ensures var n := |e.state.steps|;
            var r := AddStep(Replay(e, n), kind, stepName, tasks, retries);
            && r.Ok? && r.value.cur == Some(n) && r.value.state.steps[n].stepName == stepName
            && r.value.context.ids.step == r.value.state.steps[n].stepId
  {
    ReplayOnlyCounts(e, |e.state.steps|);
  }

  /** No two steps of the list share a name. */
  predicate UniqueNames(steps: seq<StepNode>) {
    forall i, j | 0 <= i < j < |steps| :: steps[i].stepName != steps[j].stepName
  }

  /** _determine_step_execution appends a step only under a name the list does not
      hold yet, so step names stay unique and each name is added once. */
  lemma DetermineKeepsNamesUnique(e: Engine, kind: StepType, stepName: string, tasks: seq<string>, retries: int)
    requires Valid(e) && UniqueNames(e.state.steps)
    requires DetermineStepExecution(e, kind, stepName, tasks, retries).Ok?
    ensures UniqueNames(DetermineStepExecution(e, kind, stepName, tasks, retries).value.1.state.steps)
    ensures Named(DetermineStepExecution(e, kind, stepName, tasks, retries).value.1.state.steps, stepName)
            || IsWaiting(e)
  {
    var after := DetermineStepExecution(e, kind, stepName, tasks, retries).value.1.state.steps;
    var n := |e.state.steps|;
    if |after| == n + 1 {
      assert !Named(e.state.steps, stepName);
      assert after[n].stepName == stepName;
      forall i, j | 0 <= i < j < |after| ensures after[i].stepName != after[j].stepName {
        assert after[i] == e.state.steps[i];
        if j < n { assert after[j] == e.state.steps[j]; }
      }
    } else if !IsWaiting(e) {
      assert Named(e.state.steps, stepName);
      var k :| 0 <= k < n && e.state.steps[k].stepName == stepName;
      assert after[k].stepName == stepName;
    }
  }

  /** done: an engine still in process is marked completed, any other status stays;
      the state is written to the database under its name and run id, every other
      stored state stays, and the status code is 200. Writing needs a current step. */
  function Done(e: Engine, store: Store): (r: Result<(int, Engine, Store)>)
    ensures r.Ok? <==> e.cur.Some?
    ensures r.Ok? ==>
              && r.value.0 == 200
              && r.value.1.status == (if e.status == InProcess then Completed else e.status)
              && r.value.1.(status := e.status) == e
              && (e.state.name, e.state.runId) in r.value.2.states
              && r.value.2.states[(e.state.name, e.state.runId)] == e.state
              && r.value.2.lastId == store.lastId
              && forall k | k in store.states && k != (e.state.name, e.state.runId) ::
                   k in r.value.2.states && r.value.2.states[k] == store.states[k]
  {
    var finished := if e.status == InProcess then e.(status := Completed) else e;
    if finished.cur.None? then Err(NoCurrentStepMsg)
    else Ok((200, finished, store.(states := store.states[(e.state.name, e.state.runId) := e.state])))
  }

  // ---------------------------------------------------------------------------
  // Invariants across invocations

  /** Step ids count up by one along the step list. */
  predicate Consecutive(steps: seq<StepNode>) {
    forall i | 0 < i < |steps| :: steps[i].stepId == steps[i - 1].stepId + 1
  }

  /** The context names the last step, as _init_state demands of a resumed run. */
  predicate Tracking(e: Engine) {
    |e.state.steps| > 0 ==> e.context.ids.step == e.state.steps[|e.state.steps| - 1].stepId
  }

  /** Appending at the end of the replay (`step_cnt` past the stored steps) keeps the
      step ids consecutive, makes the new step current and leaves the context naming
      it, so the next invocation resumes on it. */
  lemma AddStepKeepsIdsConsecutive(e: Engine, kind: StepType, stepName: string, tasks: seq<string>, retries: int)
    requires Consecutive(e.state.steps) && Tracking(e) && e.stepCnt == |e.state.steps|
    requires AddStep(e, kind, stepName, tasks, retries).Ok?
    ensures Consecutive(AddStep(e, kind, stepName, tasks, retries).value.state.steps)
    ensures Tracking(AddStep(e, kind, stepName, tasks, retries).value)
    ensures AddStep(e, kind, stepName, tasks, retries).value.cur == Some(|e.state.steps|)
  {
    var steps := AddStep(e, kind, stepName, tasks, retries).value.state.steps;
    forall i | 0 < i < |steps| ensures steps[i].stepId == steps[i - 1].stepId + 1 {
      if i < |e.state.steps| {
        assert steps[i] == e.state.steps[i] && steps[i - 1] == e.state.steps[i - 1];
      } else {
        assert steps[i - 1] == e.state.steps[i - 1];
      }
    }
  }

  /** A new run's first step has id 0: a fresh trigger carries step id -1. */
  lemma FreshRunStartsAtStepZero(name: string, raw: Json, store: Store, kind: StepType, stepName: string,
                                 tasks: seq<string>, retries: int)
    requires New(name, raw, store).Ok? && New(name, raw, store).value.0.context.ids.step == -1
    requires (name, GetContext(raw).value.ids.run) !in store.states
    requires AddStep(New(name, raw, store).value.0, kind, stepName, tasks, retries).Ok?
    ensures var e := New(name, raw, store).value.0;
            var added := AddStep(e, kind, stepName, tasks, retries).value;
            && added.state.steps == [added.state.steps[0]] && added.state.steps[0].stepId == 0
            && added.context.ids == Ids(store.lastId + 1, 0, -1)
  {
  }

  /** A parallel step's flags are the conjunction of its tasks' flags. */
  predicate Summarises(node: StepNode) {
    node.Parallel? ==>
      node.executed == AllExecuted(node.tasks) && node.completed == AllCompleted(node.tasks)
      && node.success == AllSucceeded(node.tasks)
  }

  /** Each flag of `before` that is set is still set in `after`. */
  predicate FlagsKept(before: StepNode, after: StepNode) {
    (before.executed ==> after.executed) && (before.completed ==> after.completed)
    && (before.success ==> after.success)
  }

  /** Merging a context never clears a flag, of the step or of any of its tasks, and a
      parallel step still summarises its tasks afterwards. */
  lemma MergeKeepsFlags(node: StepNode, ctx: Context)
    requires Summarises(node) && MergeContext(node, ctx).Ok?
    ensures Summarises(MergeContext(node, ctx).value)
    ensures FlagsKept(node, MergeContext(node, ctx).value)
    ensures node.Parallel? ==>
              forall i | 0 <= i < |node.tasks| ::
                var t := MergeContext(node, ctx).value.tasks[i];
                (node.tasks[i].executed ==> t.executed) && (node.tasks[i].completed ==> t.completed)
                && (node.tasks[i].success ==> t.success)
  {
    if node.Parallel? {
      var tasks := MergeContext(node, ctx).value.tasks;
      forall i | 0 <= i < |node.tasks|
        ensures (node.tasks[i].executed ==> tasks[i].executed) && (node.tasks[i].completed ==> tasks[i].completed)
                && (node.tasks[i].success ==> tasks[i].success)
      {
        assert tasks[i] == node.tasks[i] || tasks[i] == Absorb(node.tasks[i], ctx);
      }
    }
  }

  /** Resuming never clears a flag: every stored step keeps each flag it had set, and
      a stored list whose parallel steps summarise their tasks keeps that property. */
  lemma ResumeKeepsFlags(name: string, ctx: Context, store: Store)
    requires (name, ctx.ids.run) in store.states
    requires forall i | 0 <= i < |store.states[(name, ctx.ids.run)].steps| ::
               Summarises(store.states[(name, ctx.ids.run)].steps[i])
    requires InitState(name, ctx, store).Ok?
    ensures var before := store.states[(name, ctx.ids.run)].steps;
            var after := InitState(name, ctx, store).value.state.steps;
            && |after| == |before|
            && (forall i | 0 <= i < |before| :: FlagsKept(before[i], after[i]))
            && (forall i | 0 <= i < |after| :: Summarises(after[i]))
  {
    var before := store.states[(name, ctx.ids.run)].steps;
    var after := InitState(name, ctx, store).value.state.steps;
    var last := |before| - 1;
    if !Stale(before[last], ctx) {
      MergeKeepsFlags(before[last], ctx);
    }
    forall i | 0 <= i < |before| ensures FlagsKept(before[i], after[i]) && Summarises(after[i]) {
      if i < last {
        assert after[i] == after[..last][i] == before[..last][i] == before[i];
      }
    }
  }

  /** Closing is idempotent: a second done changes neither the status nor the
      database. */
  lemma DoneTwice(e: Engine, store: Store)
    requires Done(e, store).Ok?
    ensures var (_, e1, s1) := Done(e, store).value;
            Done(e1, s1).Ok? && Done(e1, s1).value.1 == e1 && Done(e1, s1).value.2 == s1
  {
    var (_, e1, s1) := Done(e, store).value;
    assert e1.state == e.state;
    assert s1.states[(e.state.name, e.state.runId) := e.state] == s1.states;
  }
}
