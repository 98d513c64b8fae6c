/**
 * `generateImage`: one synchronous text-to-image call (action `CVProcess`),
 * retried with exponential backoff.
 */
module ImageGeneration {
  import opened Wrappers
  import opened Strings
  import opened Wire
  import opened Retry
  import opened Client

  datatype ImageParams = ImageParams(
    prompt: Option<string>,
    negativePrompt: Option<string>,
    width: Option<int>,
    height: Option<int>,
    returnUrl: Option<bool>,
    reqKey: Option<string>,
    region: Option<string>)

  datatype ImageResponse = ImageResponse(success: bool, imageUrls: Option<seq<string>>, error: Option<string>)

  const DefaultImageModel: string := "jimeng_high_aes_general_v21_L"
  const DefaultSide: int := 512
  const MissingPromptMessage: string := "缺少必要的参数: prompt"
  const NoImageMessage: string := "未生成图像或响应格式不正确"

  /** The body object before undefined members are removed. */
  function BodyFields(p: ImageParams, prompt: string): seq<(string, Option<Json>)> {
    [ ("req_key", Some(JStr(OrDefault(p.reqKey, DefaultImageModel)))),
      ("prompt", Some(JStr(prompt))),
      ("return_url", Some(JBool(if p.returnUrl.Some? then p.returnUrl.value else true))),
      ("width", Some(JNum(NumberOr(p.width, DefaultSide)))),
      ("height", Some(JNum(NumberOr(p.height, DefaultSide)))),
      ("negative_prompt", if p.negativePrompt.Some? then Some(JStr(p.negativePrompt.value)) else None) ]
  }

  /** The members whose value is defined, in their original order. */
  function Defined(fields: seq<(string, Option<Json>)>): (r: seq<(string, Json)>)
    ensures |r| <= |fields|
    ensures forall i :: 0 <= i < |r| ==> Some(r[i].1) in FieldValues(fields, r[i].0)
    decreases |fields|
  {
    if fields == [] then []
    else
      var rest := Defined(fields[1..]);
      assert forall n :: FieldValues(fields[1..], n) <= FieldValues(fields, n);
      if fields[0].1.Some? then [(fields[0].0, fields[0].1.value)] + rest else rest
  }

  /** The values a name is given among the members. */
  function FieldValues(fields: seq<(string, Option<Json>)>, name: string): set<Option<Json>>
    decreases |fields|
  {
    if fields == [] then {}
    else (if fields[0].0 == name then {fields[0].1} else {}) + FieldValues(fields[1..], name)
  }

  /** Removing undefined members keeps exactly the defined ones: each name that had a defined value keeps it. */
  lemma {:induction false} DefinedKeepsDefinedNames(fields: seq<(string, Option<Json>)>, i: nat)
    requires i < |fields| && fields[i].1.Some?
    ensures (fields[i].0, fields[i].1.value) in Defined(fields)
    decreases i
  {
    if i > 0 {
      DefinedKeepsDefinedNames(fields[1..], i - 1);
    }
  }

  /**
   * `Object.keys(bodyParams).forEach(key => { if (bodyParams[key] === undefined) delete bodyParams[key] })`:
   * the loop visits the members in order and builds the object that remains.
   */
  method DeleteUndefined(fields: seq<(string, Option<Json>)>) returns (kept: seq<(string, Json)>)
    ensures kept == Defined(fields)
  {
    kept := [];
    for i := 0 to |fields|
      invariant kept == Defined(fields[..i])
    {
      DefinedAppend(fields[..i], fields[i]);
      assert fields[..i + 1] == fields[..i] + [fields[i]];
      if fields[i].1.Some? {
        kept := kept + [(fields[i].0, fields[i].1.value)];
      }
    }
    assert fields[..|fields|] == fields;
  }

  lemma {:induction false} DefinedAppend(fields: seq<(string, Option<Json>)>, f: (string, Option<Json>))
    ensures Defined(fields + [f]) == Defined(fields) + (if f.1.Some? then [(f.0, f.1.value)] else [])
    decreases |fields|
  {
    if fields == [] {
      assert [f][1..] == [];
    } else {
      assert (fields + [f])[1..] == fields[1..] + [f];
      DefinedAppend(fields[1..], f);
    }
  }

  /** The wait after the k-th failure: 1000 * 2^(k-1) ms, at most 10000. */
  function Backoff(k: nat): (ms: nat)
    ensures 1000 <= ms <= 10000
    ensures k <= 4 ==> ms == 1000 * Pow2(if k == 0 then 0 else k - 1)
    ensures k >= 5 ==> ms == 10000
  {
    Pow2Monotone(if k == 0 then 0 else k - 1);
    if k == 0 then 1000 else Min(1000 * Pow2(k - 1), 10000)
  }

  function Min(a: int, b: int): int { if a <= b then a else b }

  function Pow2(n: nat): (p: nat)
    ensures p >= 1
  {
    if n == 0 then 1 else 2 * Pow2(n - 1)
  }

  lemma {:induction false} Pow2Monotone(n: nat)
    ensures n >= 4 ==> Pow2(n) >= 16
    ensures n <= 3 ==> Pow2(n) <= 8
  {
    if n > 0 {
      Pow2Monotone(n - 1);
    }
  }

  /** One attempt of the loop body, made when `calls` POSTs came before it. */
  function Attempt(c: Client, p: ImageParams, w: World, calls: nat): (s: Step<ImageResponse>)
    ensures !Truthy(p.prompt) ==> s == Step([], Throw(MissingPromptMessage))
    ensures Truthy(p.prompt) ==> |s.trace| == 1 && s.trace[0].Post?
    ensures s.verdict.Return? && s.verdict.value.success ==>
      && w.reply(calls).Response? && w.reply(calls).status == 200
      && s.verdict.value.imageUrls.Some? && |s.verdict.value.imageUrls.value| > 0
  {
    if !Truthy(p.prompt) then Step([], Throw(MissingPromptMessage))
    else
      var post := [ApiPost(c, w, "CVProcess", JObj(Defined(BodyFields(p, p.prompt.value))), p.region, calls)];
      match w.reply(calls)
      case NoResponse(e) => Step(post, Throw(e))
      case Response(status, b) =>
        if status != 200 then Step(post, Throw("HTTP错误! 状态码: " + DecimalString(status)))
        else if b.metadataError.Some? then
          Step(post, Throw("API错误: " + OrDefault(b.metadataError.value.message, UnknownError)))
        else if b.data.Some? && b.data.value.imageUrls.Some? && |b.data.value.imageUrls.value| > 0 then
          Step(post, Return(ImageResponse(true, b.data.value.imageUrls, None)))
        else
          Step(post, Return(ImageResponse(false, None, Some(NoImageMessage))))
  }

  function Attempts(c: Client, p: ImageParams, w: World): nat -> Step<ImageResponse> {
    (n: nat) => Attempt(c, p, w, n)
  }

  /** What the call returns once the loop ends. */
  function Final(e: End<ImageResponse>): (r: ImageResponse)
    ensures e.Returned? ==> r == e.value
    ensures e.GaveUp? ==> !r.success && r.error == Some(if e.lastError.Some? then e.lastError.value else UnknownError)
  {
    match e
    case Returned(v) => v
    case GaveUp(Some(m)) => ImageResponse(false, None, Some(m))
    case GaveUp(None) => ImageResponse(false, None, Some(UnknownError))
  }

  /** The whole operation: the loop from attempt 0, and its result. */
  function Spec(c: Client, p: ImageParams, w: World, calls: nat): Traced<ImageResponse> {
    var run := RunFrom(Attempts(c, p, w), c.retries, Backoff, 0, calls);
    Traced(run.trace, Final(run.end))
  }

  /** `generateImage`: the retry loop over `Attempt`, then the response its end calls for. */
  method GenerateImage(c: Client, p: ImageParams, w: World, calls: nat) returns (response: ImageResponse, trace: seq<Event>)
    ensures Traced(trace, response) == Spec(c, p, w, calls)
  {
    var end;
    end, trace := Loop(Attempts(c, p, w), c.retries, Backoff, calls);
    response := Final(end);
  }
  /** An attempt sends at most its one POST and never waits itself. */
  lemma AttemptNeverWaits(c: Client, p: ImageParams, w: World, k: nat)
    ensures WaitTimes(Attempt(c, p, w, k).trace) == []
  {
    var t := Attempt(c, p, w, k).trace;
    if t != [] {
      assert t[..|t| - 1] == [];
    }
  }

  /** Whatever the replies, the waits are the backoff delays, one between each two attempts. */
  lemma BackoffSchedule(c: Client, p: ImageParams, w: World, calls: nat)
    ensures var r := RunFrom(Attempts(c, p, w), c.retries, Backoff, 0, calls);
      WaitTimes(Spec(c, p, w, calls).trace) == Delays(Backoff, 1, if r.attempts == 0 then 0 else r.attempts - 1)
  {
    var f := Attempts(c, p, w);
    forall k ensures WaitTimes(f(k).trace) == [] {
      assert f(k) == Attempt(c, p, w, k);
      AttemptNeverWaits(c, p, w, k);
    }
    RunWaits(f, c.retries, Backoff, 0, calls);
    assert Spec(c, p, w, calls).trace == RunFrom(f, c.retries, Backoff, 0, calls).trace;
  }


  /** Without a prompt no request is sent, but every attempt is still made and waited for. */
  lemma MissingPromptIsRetried(c: Client, p: ImageParams, w: World, calls: nat)
    requires !Truthy(p.prompt) && c.retries >= 0
    ensures var r := RunFrom(Attempts(c, p, w), c.retries, Backoff, 0, calls);
      && r.attempts == c.retries + 1
      && PostCount(r.trace) == 0
      && WaitTimes(r.trace) == Delays(Backoff, 1, c.retries)
      && Spec(c, p, w, calls).value == ImageResponse(false, None, Some(MissingPromptMessage))
  {
    var f := Attempts(c, p, w);
    RunAllThrow(f, c.retries, Backoff, 0, calls);
    RunWaits(f, c.retries, Backoff, 0, calls);
    RunPosts(f, c.retries, Backoff, 0, calls, 0);
    MissingPromptLastError(c, p, w, 0, calls);
  }

  lemma {:induction false} MissingPromptLastError(c: Client, p: ImageParams, w: World, count: nat, calls: nat)
    requires !Truthy(p.prompt) && count <= c.retries
    ensures RunFrom(Attempts(c, p, w), c.retries, Backoff, count, calls).end == GaveUp(Some(MissingPromptMessage))
    decreases c.retries - count
  {
    if count + 1 <= c.retries {
      MissingPromptLastError(c, p, w, count + 1, calls);
    }
  }

  /** Every attempt sends at most one POST, so a call sends at most `retries + 1`. */
  lemma PostsBounded(c: Client, p: ImageParams, w: World, calls: nat)
    ensures PostCount(Spec(c, p, w, calls).trace) <= if c.retries < 0 then 0 else c.retries + 1
  {
    var f := Attempts(c, p, w);
    forall k ensures PostCount(f(k).trace) <= 1 {
      var s := f(k);
      if Truthy(p.prompt) {
        assert s.trace == [s.trace[0]];
        assert s.trace[..0] == [];
      }
    }
    RunPosts(f, c.retries, Backoff, 0, calls, 1);
  }

  /** A 200 reply without `data`, without `image_urls`, or with an empty list ends the call at once, unsuccessfully and without a retry. */
  lemma EmptyImageListIsNotRetried(c: Client, p: ImageParams, w: World, calls: nat)
    requires Truthy(p.prompt) && c.retries >= 0
    requires w.reply(calls).Response? && w.reply(calls).status == 200
    requires w.reply(calls).body.metadataError.None?
    requires var b := w.reply(calls).body;
      !(b.data.Some? && b.data.value.imageUrls.Some? && |b.data.value.imageUrls.value| > 0)
    ensures var r := RunFrom(Attempts(c, p, w), c.retries, Backoff, 0, calls);
      r.attempts == 1 && PostCount(r.trace) == 1 && WaitTimes(r.trace) == []
    ensures Spec(c, p, w, calls).value == ImageResponse(false, None, Some(NoImageMessage))
  {
    var s := Attempt(c, p, w, calls);
    assert s.trace == [s.trace[0]] && s.trace[..0] == [];
  }
}
