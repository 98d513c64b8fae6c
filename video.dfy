/**
 * Text-to-video: submitting a task (`CVSync2AsyncSubmitTask`), querying a
 * task's result (`CVSync2AsyncGetResult`), and the one-step `generateVideo`
 * that submits and then polls.
 */
module VideoTasks {
  import opened Wrappers
  import opened Strings
  import opened Signer
  import opened Wire
  import opened Retry
  import Polling
  import opened Client

  datatype VideoParams = VideoParams(prompt: Option<string>, reqKey: Option<string>, region: Option<string>)

  /** What a task submission returns; shared with image-to-video. */
  datatype SubmitResponse = SubmitResponse(success: bool, taskId: Option<string>, error: Option<string>)

  /** What a result query returns. */
  datatype TaskResult = TaskResult(success: bool, status: Option<string>, videoUrls: Option<seq<string>>, error: Option<string>)

  /** What a one-step generation returns. */
  datatype VideoResponse = VideoResponse(success: bool, videoUrls: Option<seq<string>>, error: Option<string>, taskId: Option<string>)

  const T2VModel: string := "jimeng_vgfm_t2v_l20"
  const MissingPromptMessage: string := "缺少必要的参数: prompt"
  const RateLimitedMessage: string := "请求频率受限，请等待几分钟后再尝试提交视频生成任务。火山引擎对视频生成API有严格的并发限制。"
  const SubmitFormatMessage: string := "提交任务失败或响应格式不正确"
  const SubmitFailedMessage: string := "提交任务失败"
  const TaskFailedMessage: string := "视频生成任务失败"
  const PollTimeoutMessage: string := "轮询任务结果超时，请使用任务ID手动查询结果"
  const ContentSafetyPrefix: string := "内容安全检查未通过: "
  const NoTaskDataMessage: string := "Cannot read properties of undefined (reading 'status')"
  const NoStatusMessage: string := "Cannot read properties of undefined (reading 'toUpperCase')"
  const SubmitWait: nat := 60000
  const QueryWait: nat := 5000
  const PollInterval: nat := 5000
  const MaxPolls: nat := 30

  function SubmitDelay(k: nat): nat { SubmitWait }
  function QueryDelay(k: nat): nat { QueryWait }

  // ---------------------------------------------------------------- submitVideoTask

  function RateLimitError(b: ReplyBody): string {
    "API并发限制错误: 请求过于频繁，请稍后再试。详细信息: " + b.text
  }

  function SubmitAttempt(c: Client, p: VideoParams, w: World, calls: nat): (s: Step<SubmitResponse>)
    ensures !Truthy(p.prompt) ==> s == Step([], Throw(MissingPromptMessage))
    ensures Truthy(p.prompt) ==> |s.trace| == 1 && s.trace[0].Post?
    ensures s.verdict.Return? && s.verdict.value.success ==> Truthy(s.verdict.value.taskId)
  {
    if !Truthy(p.prompt) then Step([], Throw(MissingPromptMessage))
    else
      var body := JObj([("req_key", JStr(OrDefault(p.reqKey, T2VModel))), ("prompt", JStr(p.prompt.value))]);
      var post := [ApiPost(c, w, "CVSync2AsyncSubmitTask", body, p.region, calls)];
      match w.reply(calls)
      case NoResponse(e) => Step(post, Throw(e))
      case Response(status, b) =>
        if status != 200 then
          if status == 429 then Step(post, Throw(RateLimitError(b)))
          else Step(post, Throw(HttpErrorWithDetail(status, b)))
        else if b.metadataError.Some? then
          Step(post, Throw("API错误: " + OrDefault(b.metadataError.value.message, UnknownError)
                           + ", 错误码: " + OrDefault(b.metadataError.value.code, "无代码")))
        else if Truthy(TaskIdOf(b)) then Step(post, Return(SubmitResponse(true, TaskIdOf(b), None)))
        else Step(post, Return(SubmitResponse(false, None, Some(SubmitFormatMessage))))
  }

  function SubmitAttempts(c: Client, p: VideoParams, w: World): nat -> Step<SubmitResponse> {
    (n: nat) => SubmitAttempt(c, p, w, n)
  }

  /** A final error that mentions `429` or `并发限制` is replaced by the friendly rate-limit text. */
  function SubmitFinal(e: End<SubmitResponse>): (r: SubmitResponse)
    ensures e.Returned? ==> r == e.value
    ensures e.GaveUp? && e.lastError.Some? ==>
      && !r.success && r.taskId.None?
      && r.error == Some(if Contains(e.lastError.value, "429") || Contains(e.lastError.value, "并发限制")
                         then RateLimitedMessage else e.lastError.value)
  {
    match e
    case Returned(v) => v
    case GaveUp(Some(m)) =>
      if Contains(m, "429") || Contains(m, "并发限制") then SubmitResponse(false, None, Some(RateLimitedMessage))
      else SubmitResponse(false, None, Some(m))
    case GaveUp(None) => SubmitResponse(false, None, Some(UnknownError))
  }

  function SubmitSpec(c: Client, p: VideoParams, w: World, calls: nat): Traced<SubmitResponse> {
    var run := RunFrom(SubmitAttempts(c, p, w), 1, SubmitDelay, 0, calls);
    Traced(run.trace, SubmitFinal(run.end))
  }

  /** `submitVideoTask`: two attempts at most, a minute apart. */
  method SubmitVideoTask(c: Client, p: VideoParams, w: World, calls: nat) returns (response: SubmitResponse, trace: seq<Event>)
    ensures Traced(trace, response) == SubmitSpec(c, p, w, calls)
  {
    var end;
    end, trace := Loop(SubmitAttempts(c, p, w), 1, SubmitDelay, calls);
    response := SubmitFinal(end);
  }

  /** The rate-limit message mentions `并发限制`. */
  lemma RateLimitErrorIsRecognised(b: ReplyBody)
    ensures Contains(RateLimitError(b), "并发限制")
  {
    var lit := "API并发限制错误: 请求过于频繁，请稍后再试。详细信息: ";
    var m := RateLimitError(b);
    assert m == lit + b.text;
    assert lit[3] == '并' && lit[4] == '发' && lit[5] == '限' && lit[6] == '制';
    assert m[3..7] == lit[3..7] == "并发限制";
    ContainsAt(m, "并发限制", 3);
  }

  /** Rejected with 429 twice: two POSTs one minute apart, then the friendly rate-limit message. */
  lemma RateLimitedTwice(c: Client, p: VideoParams, w: World, calls: nat)
    requires Truthy(p.prompt)
    requires w.reply(calls).Response? && w.reply(calls).status == 429
    requires w.reply(calls + 1).Response? && w.reply(calls + 1).status == 429
    ensures SubmitSpec(c, p, w, calls).value == SubmitResponse(false, None, Some(RateLimitedMessage))
    ensures PostCount(SubmitSpec(c, p, w, calls).trace) == 2
    ensures WaitTimes(SubmitSpec(c, p, w, calls).trace) == [SubmitWait]
  {
    var f := SubmitAttempts(c, p, w);
    var s0 := SubmitAttempt(c, p, w, calls);
    var s1 := SubmitAttempt(c, p, w, calls + 1);
    SubmitRateLimited(c, p, w, calls);
    SubmitRateLimited(c, p, w, calls + 1);
    SinglePost(s0.trace);
    SinglePost(s1.trace);
    assert f(calls) == s0 && f(calls + 1) == s1;
    ThrowThenThrow(f, 1, SubmitDelay, 0, calls);
    RateLimitErrorIsRecognised(w.reply(calls + 1).body);
    WaitBetween(s0.trace, SubmitWait, s1.trace);
  }

  /** A 429 reply makes the attempt throw the rate-limit error. */
  lemma SubmitRateLimited(c: Client, p: VideoParams, w: World, k: nat)
    requires Truthy(p.prompt)
    requires w.reply(k).Response? && w.reply(k).status == 429
    ensures SubmitAttempt(c, p, w, k).verdict == Throw(RateLimitError(w.reply(k).body))
  {
  }

  /** A task id in the first reply is returned at once: one POST, no wait. */
  lemma SubmitAcceptedAtOnce(c: Client, p: VideoParams, w: World, calls: nat)
    requires Truthy(p.prompt)
    requires w.reply(calls).Response? && w.reply(calls).status == 200
    requires w.reply(calls).body.metadataError.None? && Truthy(TaskIdOf(w.reply(calls).body))
    ensures SubmitSpec(c, p, w, calls).value == SubmitResponse(true, TaskIdOf(w.reply(calls).body), None)
    ensures |SubmitSpec(c, p, w, calls).trace| == 1
  {
  }

  // ---------------------------------------------------------------- getVideoTaskResult

  /** `reqKey.split('_')[2]`: the third `_`-separated piece, absent when there are fewer. */
  function QueryRegion(reqKey: string): (r: Option<string>)
    ensures |SplitOn(reqKey, '_')| <= 2 ==> r.None?
    ensures r.Some? ==> r.value == SplitOn(reqKey, '_')[2] && '_' !in r.value
  {
    var parts := SplitOn(reqKey, '_');
    if |parts| > 2 then Some(parts[2]) else None
  }

  /** For a key `a_b_r...` the signing region is `r`, so the default keys sign with "t2v" and "i2v". */
  lemma QueryRegionIsThirdPiece(a: string, b: string, r: string, rest: string)
    requires '_' !in a && '_' !in b && '_' !in r
    requires rest == [] || rest[0] == '_'
    ensures QueryRegion(a + "_" + b + "_" + r + rest) == Some(r)
  {
    var tail := r + rest;
    var mid := b + ['_'] + tail;
    assert a + "_" + b + "_" + r + rest == a + ['_'] + mid;
    FirstPiece(r, rest);
    SplitPrefix(b, '_', tail);
    SplitPrefix(a, '_', mid);
    assert SplitOn(a + ['_'] + mid, '_')[2] == SplitOn(tail, '_')[0];
  }

  /** The first `_`-piece of `r` followed by nothing or by `_...` is `r`. */
  lemma FirstPiece(r: string, rest: string)
    requires '_' !in r
    requires rest == [] || rest[0] == '_'
    ensures SplitOn(r + rest, '_')[0] == r
  {
    if rest == [] {
      assert r + rest == r;
    } else {
      assert r + rest == r + ['_'] + rest[1..];
      SplitPrefix(r, '_', rest[1..]);
    }
  }

  /** The default text-to-video key signs its result queries for region "t2v". */
  lemma DefaultKeyRegion()
    ensures QueryRegion(T2VModel) == Some("t2v")
  {
    QueryRegionIsThirdPiece("jimeng", "vgfm", "t2v", "_l20");
    assert "jimeng" + "_" + "vgfm" + "_" + "t2v" + "_l20" == T2VModel;
  }

  /** The vendor's four status words are renamed; any other status is upper-cased. */
  function NormalizeStatus(status: string, toUpper: string -> string): (r: string)
    ensures status == "in_queue" ==> r == "PENDING"
    ensures status == "processing" ==> r == "RUNNING"
    ensures status == "done" ==> r == "SUCCEEDED"
    ensures status == "fail" ==> r == "FAILED"
    ensures status !in {"in_queue", "processing", "done", "fail"} ==> r == toUpper(status)
  {
    if status == "in_queue" then "PENDING"
    else if status == "processing" then "RUNNING"
    else if status == "done" then "SUCCEEDED"
    else if status == "fail" then "FAILED"
    else toUpper(status)
  }

  /** The URLs parsed from `resp_data` when it is a non-empty string holding a `urls` array. */
  function RespDataUrls(d: Payload, parseUrls: string -> Option<seq<string>>): seq<string> {
    if Truthy(d.respData) && parseUrls(d.respData.value).Some? then parseUrls(d.respData.value).value else []
  }

  /**
   * The video URLs of a finished task: those from `resp_data` first, then
   * `video_url` when it is a non-empty string. Nothing is de-duplicated.
   */
  function ExtractVideoUrls(d: Payload, parseUrls: string -> Option<seq<string>>): (r: seq<string>)
    ensures |r| == |RespDataUrls(d, parseUrls)| + (if Truthy(d.videoUrl) then 1 else 0)
    ensures r[..|RespDataUrls(d, parseUrls)|] == RespDataUrls(d, parseUrls)
    ensures Truthy(d.videoUrl) ==> r[|r| - 1] == d.videoUrl.value
    ensures !Truthy(d.respData) && !Truthy(d.videoUrl) ==> r == []
  {
    var urls := RespDataUrls(d, parseUrls);
    if Truthy(d.videoUrl) then urls + [d.videoUrl.value] else urls
  }

  /** A `video_url` that is also among the `resp_data` URLs appears twice. */
  lemma VideoUrlNotDeduplicated(d: Payload, parseUrls: string -> Option<seq<string>>)
    requires Truthy(d.videoUrl) && d.videoUrl.value in RespDataUrls(d, parseUrls)
    ensures multiset(ExtractVideoUrls(d, parseUrls))[d.videoUrl.value] >= 2
  {
    var urls := RespDataUrls(d, parseUrls);
    assert ExtractVideoUrls(d, parseUrls) == urls + [d.videoUrl.value];
    assert multiset(urls + [d.videoUrl.value]) == multiset(urls) + multiset{d.videoUrl.value};
  }

  /** How a 200 reply to a result query is read. */
  function ReadResult(b: ReplyBody, platform: Platform): (v: Verdict<TaskResult>)
    ensures b.code == Some(50411) ==>
      v == Return(TaskResult(false, Some("FAILED"), None, Some(ContentSafetyPrefix + Shown(b.message))))
    ensures b.code != Some(10000) && b.code != Some(50411) ==> v.Throw?
    ensures v.Return? && v.value.success ==>
      && b.code == Some(10000) && b.data.Some? && b.data.value.status.Some?
      && v.value.status == Some(NormalizeStatus(b.data.value.status.value, platform.toUpper))
      && v.value.videoUrls == Some(ExtractVideoUrls(b.data.value, platform.parseUrls))
  {
    if b.code != Some(10000) then
      if b.code == Some(50411) then
        Return(TaskResult(false, Some("FAILED"), None, Some(ContentSafetyPrefix + Shown(b.message))))
      else Throw("服务器返回业务错误: " + Shown(b.message) + " (错误码: " + ShownNumber(b.code) + ")")
    else if b.data.None? then Throw(NoTaskDataMessage)
    else if b.data.value.status.None? then Throw(NoStatusMessage)
    else
      Return(TaskResult(true, Some(NormalizeStatus(b.data.value.status.value, platform.toUpper)),
                        Some(ExtractVideoUrls(b.data.value, platform.parseUrls)), None))
  }

  function QueryAttempt(c: Client, taskId: string, reqKey: string, w: World, calls: nat): (s: Step<TaskResult>)
    ensures |s.trace| == 1 && s.trace[0].Post?
    ensures s.verdict.Return? ==> w.reply(calls).Response? && w.reply(calls).status == 200
  {
    var body := JObj([("req_key", JStr(reqKey)), ("task_id", JStr(taskId))]);
    var post := [ApiPost(c, w, "CVSync2AsyncGetResult", body, QueryRegion(reqKey), calls)];
    match w.reply(calls)
    case NoResponse(e) => Step(post, Throw(e))
    case Response(status, b) =>
      if !(200 <= status < 300) then Step(post, Throw(StatusRejection(status)))
      else if status == 200 then Step(post, ReadResult(b, w.platform))
      else Step(post, Throw(HttpErrorWithDetail(status, b)))
  }

  function QueryAttempts(c: Client, taskId: string, reqKey: string, w: World): nat -> Step<TaskResult> {
    (n: nat) => QueryAttempt(c, taskId, reqKey, w, n)
  }

  function QueryFinal(e: End<TaskResult>): (r: TaskResult)
    ensures e.Returned? ==> r == e.value
    ensures e.GaveUp? ==> !r.success && r.status.None? && r.error.Some?
    ensures e.GaveUp? && e.lastError.Some? ==> r.error == e.lastError
    ensures e.GaveUp? && e.lastError.None? ==> r.error == Some(UnknownError)
  {
    match e
    case Returned(v) => v
    case GaveUp(Some(m)) => TaskResult(false, None, None, Some(m))
    case GaveUp(None) => TaskResult(false, None, None, Some(UnknownError))
  }

  /** One result query: at most two POSTs, five seconds apart. */
  function ResultQuery(c: Client, taskId: string, reqKey: string, w: World, calls: nat): Traced<TaskResult> {
    var run := RunFrom(QueryAttempts(c, taskId, reqKey, w), 1, QueryDelay, 0, calls);
    Traced(run.trace, QueryFinal(run.end))
  }

  /** `getVideoTaskResult` */
  method GetVideoTaskResult(c: Client, taskId: string, reqKey: string, w: World, calls: nat)
    returns (result: TaskResult, trace: seq<Event>)
    ensures Traced(trace, result) == ResultQuery(c, taskId, reqKey, w, calls)
  {
    var end;
    end, trace := Loop(QueryAttempts(c, taskId, reqKey, w), 1, QueryDelay, calls);
    result := QueryFinal(end);
  }

  /** A query sends one POST, or two with one five-second wait between them. */
  lemma ResultQueryBounds(c: Client, taskId: string, reqKey: string, w: World, calls: nat)
    ensures var q := ResultQuery(c, taskId, reqKey, w, calls);
      || (PostCount(q.trace) == 1 && WaitTimes(q.trace) == [])
      || (PostCount(q.trace) == 2 && WaitTimes(q.trace) == [QueryWait])
  {
    var f := QueryAttempts(c, taskId, reqKey, w);
    forall k ensures PostCount(f(k).trace) == 1 && WaitTimes(f(k).trace) == [] {
      var s := f(k);
      assert s.trace == [s.trace[0]] && s.trace[..0] == [];
    }
    RunPostsExact(f, 1, QueryDelay, 0, calls);
    RunWaits(f, 1, QueryDelay, 0, calls);
    var run := RunFrom(f, 1, QueryDelay, 0, calls);
    if run.attempts == 1 {
      assert Delays(QueryDelay, 1, 0) == [];
    } else {
      assert Delays(QueryDelay, 1, 1) == [QueryDelay(1)];
    }
  }

  /** Code 50411 (content safety) is answered at once, unsuccessfully, with status FAILED and no retry. */
  lemma ContentSafetyNotRetried(c: Client, taskId: string, reqKey: string, w: World, calls: nat)
    requires w.reply(calls).Response? && w.reply(calls).status == 200 && w.reply(calls).body.code == Some(50411)
    ensures var q := ResultQuery(c, taskId, reqKey, w, calls);
      && q.value == TaskResult(false, Some("FAILED"), None, Some(ContentSafetyPrefix + Shown(w.reply(calls).body.message)))
      && |q.trace| == 1
  {
  }

  // ---------------------------------------------------------------- generateVideo

  /** When a polled result ends `generateVideo`: a finished task with URLs, or a failed one. */
  function Decide(taskId: string): TaskResult -> Option<VideoResponse> {
    (r: TaskResult) =>
      if r.success && (r.status == Some("SUCCEEDED") || r.status == Some("done"))
         && r.videoUrls.Some? && |r.videoUrls.value| > 0 then
        Some(VideoResponse(true, r.videoUrls, None, Some(taskId)))
      else if r.success && r.status == Some("FAILED") then
        Some(VideoResponse(false, None, Some(TaskFailedMessage), Some(taskId)))
      else None
  }

  /** The decision stops with success exactly for finished tasks with URLs, and with failure exactly for failed ones. */
  lemma DecideCases(taskId: string, r: TaskResult)
    ensures Decide(taskId)(r).Some? && Decide(taskId)(r).value.success <==>
      r.success && (r.status == Some("SUCCEEDED") || r.status == Some("done")) && r.videoUrls.Some? && |r.videoUrls.value| > 0
    ensures Decide(taskId)(r).Some? && !Decide(taskId)(r).value.success <==> r.success && r.status == Some("FAILED")
    ensures Decide(taskId)(r).Some? ==> Decide(taskId)(r).value.taskId == Some(taskId)
    ensures !r.success ==> Decide(taskId)(r).None?
  {
  }

  function Timeout(taskId: string): VideoResponse {
    VideoResponse(false, None, Some(PollTimeoutMessage), Some(taskId))
  }

  /** The response of a failed submission: its error, else a generic one. */
  function SubmitFailure(s: SubmitResponse): (r: VideoResponse)
    ensures !r.success && r.taskId.None? && r.videoUrls.None?
    ensures r.error == Some(OrDefault(s.error, SubmitFailedMessage))
  {
    VideoResponse(false, None, Some(OrDefault(s.error, SubmitFailedMessage)), None)
  }

  /** Submit, then poll with `reqKey`, every result query separated by the polling interval. */
  function GenerateSpec(submitted: Traced<SubmitResponse>, query: string -> nat -> Traced<TaskResult>, max: nat, calls: nat): Traced<VideoResponse> {
    var s := submitted.value;
    if !s.success || !Truthy(s.taskId) then Traced(submitted.trace, SubmitFailure(s))
    else
      var poll := Polling.PollFrom(query(s.taskId.value), Decide(s.taskId.value), PollInterval, max,
                                   calls + PostCount(submitted.trace));
      Traced(submitted.trace + poll.trace, if poll.stopped.Some? then poll.stopped.value else Timeout(s.taskId.value))
  }

  /** The result queries for a task, given the key they are made with. */
  function Queries(c: Client, reqKey: string, w: World): string -> nat -> Traced<TaskResult> {
    (taskId: string) => (n: nat) => ResultQuery(c, taskId, reqKey, w, n)
  }

  /**
   * The key `generateVideo` queries with: `params.req_key` passed through as
   * is, so only an absent one takes the parameter default (an empty one stays empty).
   */
  function PollKey(p: VideoParams): (k: string)
    ensures p.reqKey.Some? ==> k == p.reqKey.value
    ensures p.reqKey.None? ==> k == T2VModel
  {
    if p.reqKey.Some? then p.reqKey.value else T2VModel
  }

  function GenerateVideoSpec(c: Client, p: VideoParams, w: World, calls: nat): Traced<VideoResponse> {
    GenerateSpec(SubmitSpec(c, p, w, calls), Queries(c, PollKey(p), w), MaxPolls, calls)
  }

  /** The part `generateVideo` and `generateI2VVideo` share: after the submission, the polling loop. */
  method PollSubmitted(submitted: SubmitResponse, t0: seq<Event>, query: string -> nat -> Traced<TaskResult>, max: nat, calls: nat)
    returns (response: VideoResponse, trace: seq<Event>)
    ensures Traced(trace, response) == GenerateSpec(Traced(t0, submitted), query, max, calls)
  {
    trace := t0;
    if !submitted.success || !Truthy(submitted.taskId) {
      response := SubmitFailure(submitted);
      return;
    }
    var taskId := submitted.taskId.value;
    var stopped, t1 := Polling.Loop(query(taskId), Decide(taskId), PollInterval, max, calls + PostCount(t0));
    trace := trace + t1;
    response := if stopped.Some? then stopped.value else Timeout(taskId);
  }

  /** `generateVideo` */
  method GenerateVideo(c: Client, p: VideoParams, w: World, calls: nat) returns (response: VideoResponse, trace: seq<Event>)
    ensures Traced(trace, response) == GenerateVideoSpec(c, p, w, calls)
  {
    var submitted, t0 := SubmitVideoTask(c, p, w, calls);
    response, trace := PollSubmitted(submitted, t0, Queries(c, PollKey(p), w), MaxPolls, calls);
  }

  /** A submission that fails ends the call before any result is queried. */
  lemma FailedSubmitStops(submitted: Traced<SubmitResponse>, query: string -> nat -> Traced<TaskResult>, max: nat, calls: nat)
    requires !submitted.value.success
    ensures GenerateSpec(submitted, query, max, calls) == Traced(submitted.trace, SubmitFailure(submitted.value))
  {
  }

  /** A task that never finishes nor fails is queried 30 times, then the call times out carrying the task id. */
  lemma NeverFinishingTimesOut(submitted: Traced<SubmitResponse>, query: string -> nat -> Traced<TaskResult>, max: nat, calls: nat)
    requires submitted.value.success && Truthy(submitted.value.taskId)
    requires forall n :: Decide(submitted.value.taskId.value)(query(submitted.value.taskId.value)(n).value).None?
    ensures GenerateSpec(submitted, query, max, calls).value == Timeout(submitted.value.taskId.value)
    ensures var t := submitted.value.taskId.value;
      Polling.PollFrom(query(t), Decide(t), PollInterval, max, calls + PostCount(submitted.trace)).queries == max
  {
    var t := submitted.value.taskId.value;
    Polling.PollNeverStops(query(t), Decide(t), PollInterval, max, calls + PostCount(submitted.trace));
  }

  /** Success means a finished task with URLs, reported with the submitted task id. */
  lemma GenerateSpecSuccess(submitted: Traced<SubmitResponse>, query: string -> nat -> Traced<TaskResult>, max: nat, calls: nat)
    requires GenerateSpec(submitted, query, max, calls).value.success
    ensures var r := GenerateSpec(submitted, query, max, calls).value;
      && submitted.value.success && Truthy(submitted.value.taskId)
      && r.videoUrls.Some? && |r.videoUrls.value| > 0 && r.taskId == submitted.value.taskId
  {
    var s := submitted.value;
    var t := s.taskId.value;
    var cs := calls + PostCount(submitted.trace);
    Polling.PollStopsByDecision(query(t), Decide(t), PollInterval, max, cs);
    var poll := Polling.PollFrom(query(t), Decide(t), PollInterval, max, cs);
    var r := poll.stopped.value;
    var k :| Decide(t)(query(t)(k).value) == Some(r);
    DecideCases(t, query(t)(k).value);
  }

  /** Submission and polling together send at most the submission's POSTs plus two per query. */
  lemma GenerateSpecPostBound(submitted: Traced<SubmitResponse>, query: string -> nat -> Traced<TaskResult>, max: nat, calls: nat)
    requires forall t, k :: PostCount(query(t)(k).trace) <= 2
    ensures PostCount(GenerateSpec(submitted, query, max, calls).trace) <= PostCount(submitted.trace) + 2 * max
  {
    var s := submitted.value;
    if s.success && Truthy(s.taskId) {
      var q := query(s.taskId.value);
      var cs := calls + PostCount(submitted.trace);
      Polling.PollPosts(q, Decide(s.taskId.value), PollInterval, max, cs, 2);
      PostCountAppend(submitted.trace, Polling.PollFrom(q, Decide(s.taskId.value), PollInterval, max, cs).trace);
    }
  }

  /** A submission sends at most two POSTs. */
  lemma SubmitPostBound(c: Client, p: VideoParams, w: World, calls: nat)
    ensures PostCount(SubmitSpec(c, p, w, calls).trace) <= 2
  {
    var f := SubmitAttempts(c, p, w);
    forall k ensures PostCount(f(k).trace) <= 1 {
      var s := f(k);
      if Truthy(p.prompt) {
        assert s.trace == [s.trace[0]] && s.trace[..0] == [];
      }
    }
    RunPosts(f, 1, SubmitDelay, 0, calls, 1);
  }

  /** Whatever the replies, a submission waits never, or once for 60 seconds between its two attempts. */
  lemma SubmitWaits(c: Client, p: VideoParams, w: World, calls: nat)
    ensures var run := RunFrom(SubmitAttempts(c, p, w), 1, SubmitDelay, 0, calls);
      && run.attempts <= 2
      && SubmitSpec(c, p, w, calls).trace == run.trace
      && WaitTimes(run.trace) == (if run.attempts == 2 then [SubmitWait] else [])
  {
    var f := SubmitAttempts(c, p, w);
    forall k ensures WaitTimes(f(k).trace) == [] {
      var s := SubmitAttempt(c, p, w, k);
      assert f(k) == s;
      if Truthy(p.prompt) {
        assert s.trace[..0] == [];
      }
    }
    RunWaits(f, 1, SubmitDelay, 0, calls);
    assert Delays(SubmitDelay, 1, 1) == [SubmitDelay(1)];
  }

  /** `generateVideo` sends at most 2 submissions and 60 result queries. */
  lemma GenerateVideoPostBound(c: Client, p: VideoParams, w: World, calls: nat)
    ensures PostCount(GenerateVideoSpec(c, p, w, calls).trace) <= 2 + 2 * MaxPolls
  {
    SubmitPostBound(c, p, w, calls);
    var query := Queries(c, PollKey(p), w);
    forall t, k ensures PostCount(query(t)(k).trace) <= 2 {
      ResultQueryBounds(c, t, PollKey(p), w, k);
    }
    GenerateSpecPostBound(SubmitSpec(c, p, w, calls), query, MaxPolls, calls);
  }
}
