/**
 * The video command-line script: its argument parser, the task-type choice
 * of `--check-task`, and the image-to-video demo with its own polling loop.
 */
module VideoCli {
  import opened Wrappers
  import opened Strings
  import opened Assoc
  import opened Wire
  import opened Client
  import opened VideoTasks
  import opened ImageToVideo

  predicate IsFlag(arg: string) {
    StartsWith(arg, "--")
  }

  /** The value a flag at position `i` takes: the next token unless that is a flag too, else `"true"`. */
  function FlagValue(args: seq<string>, i: nat): string
    requires i < |args|
  {
    if i + 1 < |args| && !IsFlag(args[i + 1]) then args[i + 1] else "true"
  }

  /**
   * What the token at position `i` contributes. A token that starts with `--`
   * can never be taken as a flag's value, so every such token is read as a
   * flag, and every other token contributes nothing.
   */
  function FlagEntry(args: seq<string>, i: nat): Option<(string, string)>
    requires i < |args|
  {
    if IsFlag(args[i]) then Some((args[i][2..], FlagValue(args, i))) else None
  }

  function FlagEntries(args: seq<string>): seq<Option<(string, string)>> {
    seq(|args|, i requires 0 <= i < |args| => FlagEntry(args, i))
  }

  /** The parameters the arguments define, token by token, later flags overriding earlier ones. */
  function Params(args: seq<string>): map<string, string> {
    Merge(FlagEntries(args))
  }

  /** `parseArgs`: the index loop that takes a flag's value by skipping over it. */
  method ParseArgs(args: seq<string>) returns (params: map<string, string>)
    ensures params == Params(args)
  {
    ghost var es := FlagEntries(args);
    params := map[];
    var i := 0;
    while i < |args|
      invariant 0 <= i <= |args|
      invariant params == Merge(es[..i])
      decreases |args| - i
    {
      MergeStep(es, i);
      if StartsWith(args[i], "--") {
        var key := args[i][2..];
        if i + 1 < |args| && !StartsWith(args[i + 1], "--") {
          params := params[key := args[i + 1]];
          MergeStep(es, i + 1);
          i := i + 1;
        } else {
          params := params[key := "true"];
        }
      }
      i := i + 1;
    }
    assert es[..|args|] == es;
  }

  /** A parameter is defined exactly when some `--name` token names it. */
  lemma ParamsKeys(args: seq<string>, k: string)
    ensures k in Params(args) <==> exists i :: 0 <= i < |args| && IsFlag(args[i]) && args[i][2..] == k
  {
    var es := FlagEntries(args);
    MergeKeys(es, k);
    forall i | 0 <= i < |args|
      ensures es[i].Some? && es[i].value.0 == k <==> IsFlag(args[i]) && args[i][2..] == k
    {
      assert es[i] == FlagEntry(args, i);
    }
  }

  /** Every parameter's value is what one of its flags takes: the token after it, or `"true"`. */
  lemma ParamsValues(args: seq<string>, k: string)
    requires k in Params(args)
    ensures exists i :: 0 <= i < |args| && IsFlag(args[i]) && args[i][2..] == k && Params(args)[k] == FlagValue(args, i)
  {
    var es := FlagEntries(args);
    MergeValue(es, k);
    var i :| 0 <= i < |es| && es[i] == Some((k, Merge(es)[k]));
    assert es[i] == FlagEntry(args, i);
  }

  /** The last flag of a name decides its value. */
  lemma LastFlagWins(args: seq<string>, i: nat)
    requires i < |args| && IsFlag(args[i])
    requires forall j :: i < j < |args| && IsFlag(args[j]) ==> args[j][2..] != args[i][2..]
    ensures args[i][2..] in Params(args) && Params(args)[args[i][2..]] == FlagValue(args, i)
  {
    var es := FlagEntries(args);
    assert es[i] == FlagEntry(args, i);
    forall j | i < j < |es| ensures es[j].None? || es[j].value.0 != es[i].value.0 {
      assert es[j] == FlagEntry(args, j);
    }
    MergeLast(es, i);
  }

  /** `checkTaskResult`'s key: the image-to-video model exactly for the type `i2v`. */
  function CheckTaskReqKey(taskType: string): (k: string)
    ensures k == I2VModel <==> taskType == "i2v"
    ensures k != I2VModel ==> k == T2VModel
  {
    ModelsDiffer();
    if taskType == "i2v" then I2VModel else T2VModel
  }

  lemma ModelsDiffer()
    ensures I2VModel != T2VModel
  {
    assert I2VModel[12] != T2VModel[12];
  }

  /** `args['type'] || 't2v'` */
  function TaskType(params: map<string, string>): (t: string)
    ensures "type" in params && params["type"] != "" ==> t == params["type"]
    ensures !("type" in params && params["type"] != "") ==> t == "t2v"
  {
    OrDefault(if "type" in params then Some(params["type"]) else None, "t2v")
  }

  /** What `main` hands to `checkTaskResult` as written: a model key resolved from the type, not the type itself. */
  function MainResolvedKey(params: map<string, string>): (k: string)
    ensures k == T2VModel <==> TaskType(params) == "t2v"
    ensures k == T2VModel || k == I2VModel
  {
    ModelsDiffer();
    if TaskType(params) == "t2v" then T2VModel else I2VModel
  }

  /** The key the `--check-task` query is made with, as written. */
  function CheckTaskKeyAsWritten(params: map<string, string>): string {
    CheckTaskReqKey(MainResolvedKey(params))
  }

  /** As written, a model key is never the word `i2v`, so every check queries with the text-to-video key. */
  lemma CheckTaskAlwaysTextToVideo(params: map<string, string>)
    ensures CheckTaskKeyAsWritten(params) == T2VModel
  {
    var k := MainResolvedKey(params);
    assert |k| != 3;
  }

  /** `--check-task T --type i2v` queries an image-to-video task with the text-to-video key. */
  lemma CheckTaskI2VQueriedAsT2V()
    ensures var params := map["check-task" := "T", "type" := "i2v"];
      TaskType(params) == "i2v" && CheckTaskKeyAsWritten(params) == T2VModel
  {
    CheckTaskAlwaysTextToVideo(map["check-task" := "T", "type" := "i2v"]);
  }

  /** The corrected key: the task type itself goes to `checkTaskResult`. */
  function CheckTaskKey(params: map<string, string>): string {
    CheckTaskReqKey(TaskType(params))
  }

  /** With the type passed through, `--type i2v` selects the image-to-video key and anything else the text-to-video one. */
  lemma CheckTaskKeyFollowsType(params: map<string, string>)
    ensures CheckTaskKey(params) == I2VModel <==> "type" in params && params["type"] == "i2v"
    ensures CheckTaskKey(params) == T2VModel <==> !("type" in params && params["type"] == "i2v")
  {
    ModelsDiffer();
  }

  /** The `--check-task` branch of `main`, with the corrected key: one result query for the given task. */
  method CheckTask(c: Client, params: map<string, string>, w: World, calls: nat) returns (result: Option<TaskResult>, trace: seq<Event>)
    ensures !("check-task" in params && params["check-task"] != "") ==> result.None? && trace == []
    ensures "check-task" in params && params["check-task"] != "" ==>
      Traced(trace, result) == Traced(ResultQuery(c, params["check-task"], CheckTaskKey(params), w, calls).trace,
                                      Some(ResultQuery(c, params["check-task"], CheckTaskKey(params), w, calls).value))
  {
    if !("check-task" in params && params["check-task"] != "") {
      return None, [];
    }
    var r;
    r, trace := GetVideoTaskResult(c, params["check-task"], CheckTaskReqKey(TaskType(params)), w, calls);
    result := Some(r);
  }

  /** How the image-to-video demo ends. */
  datatype DemoOutcome =
    | SubmitFailed(error: Option<string>)
    | Submitted(taskId: string)
    | Generated(videoUrls: Option<seq<string>>)
    | QueryFailed(error: Option<string>)
    | TaskFailed(reason: string)
    | TimedOut(taskId: string)

  const DemoPolls: nat := 30
  const DemoInterval: nat := 5000

  /** The demo's request: one image URL, the image-to-video key, 16:9, `cn-north-1`, and the prompt only when given. */
  function DemoParams(imageUrl: string, prompt: Option<string>): (p: I2VParams)
    ensures ImagesOf(p) == Some([imageUrl])
    ensures p.reqKey == Some(I2VModel) && p.aspectRatio == Some("16:9") && p.region == Some(DefaultRegion)
    ensures Truthy(p.prompt) <==> Truthy(prompt)
  {
    I2VParams(Some(I2VModel), None, Some([imageUrl]), if Truthy(prompt) then prompt else None, Some("16:9"), Some(DefaultRegion))
  }

  /** After each query: stop on success with `SUCCEEDED`, on a failed query, or on `FAILED`; otherwise go on. */
  function DemoDecide(r: TaskResult): Option<DemoOutcome> {
    if r.success && r.status == Some("SUCCEEDED") then Some(Generated(r.videoUrls))
    else if !r.success then Some(QueryFailed(r.error))
    else if r.status == Some("FAILED") then Some(TaskFailed(OrDefault(r.error, UnknownError)))
    else None
  }

  /** The loop stops exactly on these three kinds of answer, and on no other. */
  lemma DemoDecideCases(r: TaskResult)
    ensures var o := DemoDecide(r);
      && (o.Some? && o.value.Generated? <==> r.success && r.status == Some("SUCCEEDED"))
      && (o.Some? && o.value.QueryFailed? <==> !r.success)
      && (o.Some? && o.value.TaskFailed? <==> r.success && r.status == Some("FAILED"))
      && (o.Some? ==> o.value.Generated? || o.value.QueryFailed? || o.value.TaskFailed?)
      && (o.Some? && o.value.Generated? ==> o.value.videoUrls == r.videoUrls)
      && (o.Some? && o.value.TaskFailed? ==> o.value.reason == OrDefault(r.error, UnknownError))
  {
  }

  /**
   * The demo once the submission has answered: stop on failure or in two-step
   * mode, else poll the task up to 30 times. A successful submission carries
   * a task id.
   */
  function DemoFrom(submitted: Traced<SubmitResponse>, query: string -> nat -> Traced<TaskResult>, oneStep: bool, max: nat, calls: nat): Traced<DemoOutcome>
    requires submitted.value.success ==> Truthy(submitted.value.taskId)
  {
    var s := submitted.value;
    if !s.success then Traced(submitted.trace, SubmitFailed(s.error))
    else if !oneStep then Traced(submitted.trace, Submitted(s.taskId.value))
    else
      var poll := Polling.PollFrom(query(s.taskId.value), DemoDecide, DemoInterval, max, calls + PostCount(submitted.trace));
      Traced(submitted.trace + poll.trace, if poll.stopped.Some? then poll.stopped.value else TimedOut(s.taskId.value))
  }

  function DemoSpec(c: Client, imageUrl: string, prompt: Option<string>, oneStep: bool, w: World, calls: nat): Traced<DemoOutcome> {
    SubmitSuccessHasTaskId(c, DemoParams(imageUrl, prompt), w, calls);
    DemoFrom(SubmitI2VSpec(c, DemoParams(imageUrl, prompt), w, calls), Queries(c, I2VModel, w), oneStep, DemoPolls, calls)
  }

  /** `demoImageToVideo` */
  method DemoImageToVideo(c: Client, imageUrl: string, prompt: Option<string>, oneStep: bool, w: World, calls: nat)
    returns (outcome: DemoOutcome, trace: seq<Event>)
    ensures Traced(trace, outcome) == DemoSpec(c, imageUrl, prompt, oneStep, w, calls)
  {
    var params := DemoParams(imageUrl, prompt);
    var taskResult, t0 := SubmitI2VTask(c, params, w, calls);
    SubmitSuccessHasTaskId(c, params, w, calls);
    outcome, trace := DemoPoll(taskResult, t0, Queries(c, I2VModel, w), oneStep, DemoPolls, calls);
  }

  /** The demo's steps after `submitI2VTask`: the checks and the `for` polling loop. */
  method DemoPoll(taskResult: SubmitResponse, t0: seq<Event>, query: string -> nat -> Traced<TaskResult>, oneStep: bool, max: nat, calls: nat)
    returns (outcome: DemoOutcome, trace: seq<Event>)
    requires taskResult.success ==> Truthy(taskResult.taskId)
    ensures Traced(trace, outcome) == DemoFrom(Traced(t0, taskResult), query, oneStep, max, calls)
  {
    trace := t0;
    if !taskResult.success {
      return SubmitFailed(taskResult.error), trace;
    }
    var taskId := taskResult.taskId.value;
    if !oneStep {
      return Submitted(taskId), trace;
    }
    var stopped, t1 := Polling.Loop(query(taskId), DemoDecide, DemoInterval, max, calls + PostCount(t0));
    trace := trace + t1;
    outcome := if stopped.Some? then stopped.value else TimedOut(taskId);
  }

  /** In one-step mode every ending after a successful submission is the decision on one result query, or the timeout. */
  lemma DemoEndsByDecision(submitted: Traced<SubmitResponse>, query: string -> nat -> Traced<TaskResult>, max: nat, calls: nat)
    requires submitted.value.success && Truthy(submitted.value.taskId)
    ensures var o := DemoFrom(submitted, query, true, max, calls).value;
      o.TimedOut? || exists k :: DemoDecide(query(submitted.value.taskId.value)(k).value) == Some(o)
  {
    var q := query(submitted.value.taskId.value);
    var cs := calls + PostCount(submitted.trace);
    Polling.PollStopsByDecision(q, DemoDecide, DemoInterval, max, cs);
  }

  /** A task that never finishes and whose queries never fail is queried 30 times and then given up. */
  lemma DemoTimesOut(submitted: Traced<SubmitResponse>, query: string -> nat -> Traced<TaskResult>, max: nat, calls: nat)
    requires submitted.value.success && Truthy(submitted.value.taskId)
    requires forall k :: DemoDecide(query(submitted.value.taskId.value)(k).value).None?
    ensures DemoFrom(submitted, query, true, max, calls).value == TimedOut(submitted.value.taskId.value)
  {
    var q := query(submitted.value.taskId.value);
    Polling.PollNeverStops(q, DemoDecide, DemoInterval, max, calls + PostCount(submitted.trace));
  }

  /** The demo sends at most 2 submissions and 30 queries of at most 2 POSTs each. */
  lemma DemoPostBound(c: Client, imageUrl: string, prompt: Option<string>, oneStep: bool, w: World, calls: nat)
    ensures PostCount(DemoSpec(c, imageUrl, prompt, oneStep, w, calls).trace) <= 2 + 2 * DemoPolls
  {
    var p := DemoParams(imageUrl, prompt);
    var submitted := SubmitI2VSpec(c, p, w, calls);
    SubmitI2VPostBound(c, p, w, calls);
    SubmitSuccessHasTaskId(c, p, w, calls);
    var query := Queries(c, I2VModel, w);
    forall t, k ensures PostCount(query(t)(k).trace) <= 2 {
      ResultQueryBounds(c, t, I2VModel, w, k);
    }
    DemoFromPostBound(submitted, query, oneStep, DemoPolls, calls);
  }

  lemma DemoFromPostBound(submitted: Traced<SubmitResponse>, query: string -> nat -> Traced<TaskResult>, oneStep: bool, max: nat, calls: nat)
    requires submitted.value.success ==> Truthy(submitted.value.taskId)
    requires forall t, k :: PostCount(query(t)(k).trace) <= 2
    ensures PostCount(DemoFrom(submitted, query, oneStep, max, calls).trace) <= PostCount(submitted.trace) + 2 * max
  {
    var s := submitted.value;
    if s.success && oneStep {
      var q := query(s.taskId.value);
      var cs := calls + PostCount(submitted.trace);
      Polling.PollPosts(q, DemoDecide, DemoInterval, max, cs, 2);
      PostCountAppend(submitted.trace, Polling.PollFrom(q, DemoDecide, DemoInterval, max, cs).trace);
    }
  }
}
