/**
 * Image-to-video: `submitI2VTask` and the one-step `generateI2VVideo`, which
 * polls with the same result query as text-to-video.
 */
module ImageToVideo {
  import opened Wrappers
  import opened Strings
  import opened Wire
  import opened Retry
  import opened Client
  import opened VideoTasks

  datatype I2VParams = I2VParams(
    reqKey: Option<string>,
    imageUrl: Option<string>,
    imageUrls: Option<seq<string>>,
    prompt: Option<string>,
    aspectRatio: Option<string>,
    region: Option<string>)

  const I2VModel: string := "jimeng_vgfm_i2v_l20"
  const DefaultAspectRatio: string := "16:9"
  const MissingImageMessage: string := "缺少必要的参数: image_url 或 image_urls"
  const NoTaskIdMessage: string := "服务器未返回任务ID"
  const RetriesSpentMessage: string := "提交任务失败，已达到最大重试次数"
  const ImageErrorPrefix: string := "图片格式不支持或无法访问。请确保提供的是可公开访问的JPEG或PNG格式图片URL。详细错误: "

  /** `image_urls` when non-empty, else `[image_url]` when that is non-empty, else none. */
  function ImagesOf(p: I2VParams): (r: Option<seq<string>>)
    ensures p.imageUrls.Some? && |p.imageUrls.value| > 0 ==> r == p.imageUrls
    ensures !(p.imageUrls.Some? && |p.imageUrls.value| > 0) && Truthy(p.imageUrl) ==> r == Some([p.imageUrl.value])
    ensures r.None? <==> !(p.imageUrls.Some? && |p.imageUrls.value| > 0) && !Truthy(p.imageUrl)
    ensures r.Some? ==> |r.value| > 0
  {
    if p.imageUrls.Some? && |p.imageUrls.value| > 0 then p.imageUrls
    else if Truthy(p.imageUrl) then Some([p.imageUrl.value])
    else None
  }

  function JStrs(urls: seq<string>): (r: seq<Json>)
    ensures |r| == |urls| && forall i :: 0 <= i < |urls| ==> r[i] == JStr(urls[i])
  {
    seq(|urls|, i requires 0 <= i < |urls| => JStr(urls[i]))
  }

  /** The body: key, images, aspect ratio, and the prompt only when it is non-empty. */
  function Body(p: I2VParams, images: seq<string>): (b: Json)
    ensures b.JObj? && |b.fields| == if Truthy(p.prompt) then 4 else 3
    ensures b.fields[0] == ("req_key", JStr(OrDefault(p.reqKey, I2VModel)))
    ensures b.fields[1] == ("image_urls", JArr(JStrs(images)))
    ensures b.fields[2] == ("aspect_ratio", JStr(OrDefault(p.aspectRatio, DefaultAspectRatio)))
    ensures Truthy(p.prompt) ==> b.fields[3] == ("prompt", JStr(p.prompt.value))
  {
    JObj([("req_key", JStr(OrDefault(p.reqKey, I2VModel))),
          ("image_urls", JArr(JStrs(images))),
          ("aspect_ratio", JStr(OrDefault(p.aspectRatio, DefaultAspectRatio)))]
         + (if Truthy(p.prompt) then [("prompt", JStr(p.prompt.value))] else []))
  }

  /** `response.data.code || response.data.status || '无'` */
  function CodeText(b: ReplyBody): (r: string)
    ensures b.code.Some? && b.code.value != 0 ==> r == DecimalString(b.code.value)
    ensures (b.code.None? || b.code.value == 0) && b.status.Some? && b.status.value != 0 ==> r == DecimalString(b.status.value)
    ensures (b.code.None? || b.code.value == 0) && (b.status.None? || b.status.value == 0) ==> r == "无"
  {
    if b.code.Some? && b.code.value != 0 then DecimalString(b.code.value)
    else if b.status.Some? && b.status.value != 0 then DecimalString(b.status.value)
    else "无"
  }

  /** How a 2xx reply to a submission is read. */
  function ReadSubmit(status: int, b: ReplyBody): (v: Verdict<SubmitResponse>)
    ensures v.Return? <==> status == 200 && (b.status == Some(10000) || b.code == Some(10000)) && Truthy(TaskIdOf(b))
    ensures v.Return? ==> v.value == SubmitResponse(true, TaskIdOf(b), None)
  {
    if status == 200 then
      if b.status == Some(10000) || b.code == Some(10000) then
        if !Truthy(TaskIdOf(b)) then Throw(NoTaskIdMessage)
        else Return(SubmitResponse(true, TaskIdOf(b), None))
      else Throw("API错误: " + OrDefault(b.message, UnknownError) + ", 错误码: " + CodeText(b))
    else Throw(HttpErrorWithDetail(status, b))
  }

  /** The `try` block of one attempt, before its `catch` looks at the error. */
  function TryAttempt(c: Client, p: I2VParams, w: World, calls: nat): (s: Step<SubmitResponse>)
    ensures ImagesOf(p).None? ==> s == Step([], Throw(MissingImageMessage))
    ensures ImagesOf(p).Some? ==> |s.trace| == 1 && s.trace[0].Post?
  {
    match ImagesOf(p)
    case None => Step([], Throw(MissingImageMessage))
    case Some(images) =>
      var post := [ApiPost(c, w, "CVSync2AsyncSubmitTask", Body(p, images), p.region, calls)];
      match w.reply(calls)
      case NoResponse(e) => Step(post, Throw(e))
      case Response(status, b) =>
        if !(200 <= status < 300) then Step(post, Throw(StatusRejection(status)))
        else Step(post, ReadSubmit(status, b))
  }

  /** The error texts that mean the image itself was refused. */
  predicate IsImageError(message: string) {
    Contains(message, "Image Decode Error") || Contains(message, "image format unsupported") || Contains(message, "image url")
  }

  /** One attempt: an image error is answered at once with the friendly message; any other error goes to the retry. */
  function Attempt(c: Client, p: I2VParams, w: World, calls: nat): (s: Step<SubmitResponse>)
    ensures s.trace == TryAttempt(c, p, w, calls).trace
    ensures s.verdict.Throw? <==> TryAttempt(c, p, w, calls).verdict.Throw? && !IsImageError(TryAttempt(c, p, w, calls).verdict.message)
    ensures var t := TryAttempt(c, p, w, calls).verdict;
      t.Throw? && IsImageError(t.message) ==> s.verdict == Return(SubmitResponse(false, None, Some(ImageErrorPrefix + t.message)))
  {
    var t := TryAttempt(c, p, w, calls);
    match t.verdict
    case Throw(m) =>
      if IsImageError(m) then Step(t.trace, Return(SubmitResponse(false, None, Some(ImageErrorPrefix + m)))) else t
    case Return(_) => t
  }

  function Attempts(c: Client, p: I2VParams, w: World): nat -> Step<SubmitResponse> {
    (n: nat) => Attempt(c, p, w, n)
  }

  /** After the loop: the last error's message, else the generic one. */
  function Final(e: End<SubmitResponse>): (r: SubmitResponse)
    ensures e.Returned? ==> r == e.value
    ensures e.GaveUp? ==> !r.success && r.error == Some(if e.lastError.Some? then e.lastError.value else RetriesSpentMessage)
  {
    match e
    case Returned(v) => v
    case GaveUp(Some(m)) => SubmitResponse(false, None, Some(m))
    case GaveUp(None) => SubmitResponse(false, None, Some(RetriesSpentMessage))
  }

  function SubmitI2VSpec(c: Client, p: I2VParams, w: World, calls: nat): Traced<SubmitResponse> {
    var run := RunFrom(Attempts(c, p, w), 1, SubmitDelay, 0, calls);
    Traced(run.trace, Final(run.end))
  }

  /** `submitI2VTask`: two attempts at most, a minute apart. */
  method SubmitI2VTask(c: Client, p: I2VParams, w: World, calls: nat) returns (response: SubmitResponse, trace: seq<Event>)
    ensures Traced(trace, response) == SubmitI2VSpec(c, p, w, calls)
  {
    var end;
    end, trace := Loop(Attempts(c, p, w), 1, SubmitDelay, calls);
    response := Final(end);
  }

  /** A successful submission always carries a non-empty task id. */
  lemma SubmitSuccessHasTaskId(c: Client, p: I2VParams, w: World, calls: nat)
    ensures var r := SubmitI2VSpec(c, p, w, calls).value;
      r.success ==> Truthy(r.taskId)
  {
    var f := Attempts(c, p, w);
    RunReturnsAttemptValue(f, 1, SubmitDelay, 0, calls);
    var run := RunFrom(f, 1, SubmitDelay, 0, calls);
    if run.end.Returned? && run.end.value.success {
      var k :| f(k).verdict == Return(run.end.value);
      var t := TryAttempt(c, p, w, k);
      assert t.verdict.Return? && t.verdict.value == run.end.value;
    }
  }

  /** Without any image no request is sent; the error is retried once after a minute and then returned. */
  lemma MissingImageIsRetried(c: Client, p: I2VParams, w: World, calls: nat)
    requires ImagesOf(p).None?
    ensures SubmitI2VSpec(c, p, w, calls) == Traced([Wait(SubmitWait)], SubmitResponse(false, None, Some(MissingImageMessage)))
  {
    var f := Attempts(c, p, w);
    assert !IsImageError(MissingImageMessage) by {
      MissingImageIsNotImageError();
    }
    var s0 := f(calls);
    assert s0 == Step([], Throw(MissingImageMessage));
    assert PostCount([]) == 0;
    assert [] + [Wait(SubmitDelay(1))] + [] == [Wait(SubmitWait)];
  }

  /** An image error ends the submission at once with the friendly message: one POST, no retry. */
  lemma ImageErrorNotRetried(c: Client, p: I2VParams, w: World, calls: nat)
    requires TryAttempt(c, p, w, calls).verdict.Throw?
    requires IsImageError(TryAttempt(c, p, w, calls).verdict.message)
    ensures SubmitI2VSpec(c, p, w, calls).value
         == SubmitResponse(false, None, Some(ImageErrorPrefix + TryAttempt(c, p, w, calls).verdict.message))
    ensures SubmitI2VSpec(c, p, w, calls).trace == TryAttempt(c, p, w, calls).trace
  {
  }

  /** A 200 reply with status or code 10000 but no task id is an error, not a success. */
  lemma MissingTaskIdIsError(b: ReplyBody)
    requires (b.status == Some(10000) || b.code == Some(10000)) && !Truthy(TaskIdOf(b))
    ensures ReadSubmit(200, b) == Throw(NoTaskIdMessage)
    ensures !IsImageError(NoTaskIdMessage)
  {
    assert 'm' !in NoTaskIdMessage;
    NotImageErrorWithoutM(NoTaskIdMessage);
  }

  /** An error that is not an image error, thrown by the first attempt, is retried once after a minute. */
  lemma OtherErrorRetried(c: Client, p: I2VParams, w: World, calls: nat)
    requires ImagesOf(p).Some?
    requires TryAttempt(c, p, w, calls).verdict.Throw? && !IsImageError(TryAttempt(c, p, w, calls).verdict.message)
    ensures var run := RunFrom(Attempts(c, p, w), 1, SubmitDelay, 0, calls);
      run.attempts == 2 && PostCount(run.trace) == 2 && WaitTimes(run.trace) == [SubmitWait]
  {
    var f := Attempts(c, p, w);
    forall k ensures WaitTimes(f(k).trace) == [] && PostCount(f(k).trace) == 1 {
      var s := f(k);
      assert s.trace == [s.trace[0]] && s.trace[..0] == [];
    }
    RunWaits(f, 1, SubmitDelay, 0, calls);
    RunPostsExact(f, 1, SubmitDelay, 0, calls);
    assert Delays(SubmitDelay, 1, 1) == [SubmitDelay(1)];
  }

  /** All three image-error texts contain an `m`. */
  lemma NotImageErrorWithoutM(s: string)
    requires 'm' !in s
    ensures !IsImageError(s)
  {
    MissingCharExcludes(s, "Image Decode Error", 1);
    MissingCharExcludes(s, "image format unsupported", 1);
    MissingCharExcludes(s, "image url", 1);
  }

  /** The default image-to-video key signs its result queries for region "i2v". */
  lemma DefaultKeyRegion()
    ensures QueryRegion(I2VModel) == Some("i2v")
  {
    QueryRegionIsThirdPiece("jimeng", "vgfm", "i2v", "_l20");
    assert "jimeng" + "_" + "vgfm" + "_" + "i2v" + "_l20" == I2VModel;
  }

  /** `generateI2VVideo` polls with `params.req_key || "jimeng_vgfm_i2v_l20"`. */
  function PollKey(p: I2VParams): (k: string)
    ensures Truthy(p.reqKey) ==> k == p.reqKey.value
    ensures !Truthy(p.reqKey) ==> k == I2VModel
  {
    OrDefault(p.reqKey, I2VModel)
  }

  function GenerateI2VSpec(c: Client, p: I2VParams, w: World, calls: nat): Traced<VideoResponse> {
    GenerateSpec(SubmitI2VSpec(c, p, w, calls), Queries(c, PollKey(p), w), MaxPolls, calls)
  }

  /** `generateI2VVideo`: submit, then poll exactly as text-to-video does. */
  method GenerateI2VVideo(c: Client, p: I2VParams, w: World, calls: nat) returns (response: VideoResponse, trace: seq<Event>)
    ensures Traced(trace, response) == GenerateI2VSpec(c, p, w, calls)
  {
    var submitted, t0 := SubmitI2VTask(c, p, w, calls);
    response, trace := PollSubmitted(submitted, t0, Queries(c, PollKey(p), w), MaxPolls, calls);
  }

  /** A successful image-to-video generation carries the task id and a non-empty list of URLs from a finished task. */
  lemma GenerateI2VSuccess(c: Client, p: I2VParams, w: World, calls: nat)
    requires GenerateI2VSpec(c, p, w, calls).value.success
    ensures var r := GenerateI2VSpec(c, p, w, calls).value;
      r.videoUrls.Some? && |r.videoUrls.value| > 0 && r.taskId == SubmitI2VSpec(c, p, w, calls).value.taskId
  {
    GenerateSpecSuccess(SubmitI2VSpec(c, p, w, calls), Queries(c, PollKey(p), w), MaxPolls, calls);
  }

  /** An image-to-video submission sends at most two POSTs. */
  lemma SubmitI2VPostBound(c: Client, p: I2VParams, w: World, calls: nat)
    ensures PostCount(SubmitI2VSpec(c, p, w, calls).trace) <= 2
  {
    var f := Attempts(c, p, w);
    forall k ensures PostCount(f(k).trace) <= 1 {
      var s := TryAttempt(c, p, w, k);
      if ImagesOf(p).Some? {
        assert s.trace == [s.trace[0]] && s.trace[..0] == [];
      }
    }
    RunPosts(f, 1, SubmitDelay, 0, calls, 1);
  }

  /** Whatever the replies, an image-to-video submission waits never, or once for 60 seconds between its two attempts. */
  lemma SubmitI2VWaits(c: Client, p: I2VParams, w: World, calls: nat)
    ensures var run := RunFrom(Attempts(c, p, w), 1, SubmitDelay, 0, calls);
      && run.attempts <= 2
      && SubmitI2VSpec(c, p, w, calls).trace == run.trace
      && WaitTimes(run.trace) == (if run.attempts == 2 then [SubmitWait] else [])
  {
    var f := Attempts(c, p, w);
    forall k ensures WaitTimes(f(k).trace) == [] {
      var s := TryAttempt(c, p, w, k);
      assert f(k).trace == s.trace;
      if ImagesOf(p).Some? {
        assert s.trace[..0] == [];
      }
    }
    RunWaits(f, 1, SubmitDelay, 0, calls);
    assert Delays(SubmitDelay, 1, 1) == [SubmitDelay(1)];
  }

  /** `generateI2VVideo` sends at most 2 submissions and 60 result queries. */
  lemma GenerateI2VPostBound(c: Client, p: I2VParams, w: World, calls: nat)
    ensures PostCount(GenerateI2VSpec(c, p, w, calls).trace) <= 2 + 2 * MaxPolls
  {
    SubmitI2VPostBound(c, p, w, calls);
    var query := Queries(c, PollKey(p), w);
    forall t, k ensures PostCount(query(t)(k).trace) <= 2 {
      ResultQueryBounds(c, t, PollKey(p), w, k);
    }
    GenerateSpecPostBound(SubmitI2VSpec(c, p, w, calls), query, MaxPolls, calls);
  }

  /** A message without `I` or `f`, in which `e` is never followed by a space, is not an image error. */
  lemma NotImageError(s: string)
    requires 'I' !in s && 'f' !in s
    requires forall j :: 0 <= j < |s| - 1 && s[j] == 'e' ==> s[j + 1] == '_'
    ensures !IsImageError(s)
  {
    MissingCharExcludes(s, "Image Decode Error", 0);
    MissingCharExcludes(s, "image format unsupported", 6);
    MissingPairExcludes(s, "image url", 4);
  }

  /** The missing-image message names `image_url`, not `image url`, so it is not taken for an image error. */
  lemma MissingImageIsNotImageError()
    ensures !IsImageError(MissingImageMessage)
  {
    NoCapitalI();
    NoLetterF();
    NoSpaceAfterE();
    NotImageError(MissingImageMessage);
  }

  lemma NoCapitalI()
    ensures 'I' !in MissingImageMessage
  {
  }

  lemma NoLetterF()
    ensures 'f' !in MissingImageMessage
  {
  }

  lemma NoSpaceAfterE()
    ensures forall j :: 0 <= j < |MissingImageMessage| - 1 && MissingImageMessage[j] == 'e' ==> MissingImageMessage[j + 1] == '_'
  {
  }

  /** A text lacking one of `t`'s characters does not contain `t`. */
  lemma {:induction false} MissingCharExcludes(s: string, t: string, k: nat)
    requires k < |t| && t[k] !in s
    ensures !Contains(s, t)
    decreases |s|
  {
    if |t| <= |s| {
      assert s[..|t|][k] == s[k] != t[k];
    }
    if s != [] {
      MissingCharExcludes(s[1..], t, k);
    }
  }

  /** A text in which `t[k]` is never followed by `t[k+1]` does not contain `t`. */
  lemma {:induction false} MissingPairExcludes(s: string, t: string, k: nat)
    requires k + 1 < |t|
    requires forall j :: 0 <= j < |s| - 1 && s[j] == t[k] ==> s[j + 1] != t[k + 1]
    ensures !Contains(s, t)
    decreases |s|
  {
    if |t| <= |s| {
      assert s[..|t|][k] != t[k] || s[..|t|][k + 1] != t[k + 1];
    }
    if s != [] {
      forall j | 0 <= j < |s[1..]| - 1 && s[1..][j] == t[k]
        ensures s[1..][j + 1] != t[k + 1]
      {
        assert s[j + 1] == t[k];
      }
      MissingPairExcludes(s[1..], t, k);
    }
  }
}
