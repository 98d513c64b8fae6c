/**
 * What the task client exchanges with the outside world. Every HTTP call is a
 * signed POST answered by an abstract reply; every `setTimeout` is a recorded
 * wait. A run of the client is then a sequence of such events, and the replies
 * and the clock are functions of how many POSTs came before.
 */
module Wire {
  import opened Wrappers
  import opened Signer

  /** The JSON values the client builds as request bodies; objects keep their field order. */
  datatype Json =
    | JStr(str: string)
    | JNum(num: int)
    | JBool(truth: bool)
    | JArr(items: seq<Json>)
    | JObj(fields: seq<(string, Json)>)

  /** The members of a reply's `data.data` object that the client reads. */
  datatype Payload = Payload(
    imageUrls: Option<seq<string>>, // `image_urls`, when it is an array
    taskId: Option<string>,         // `task_id`
    status: Option<string>,         // `status`, when it is a string
    respData: Option<string>,       // `resp_data`, when it is a string
    videoUrl: Option<string>)       // `video_url`, when it is a string

  /** `ResponseMetadata.Error` */
  datatype MetadataError = MetadataError(message: Option<string>, code: Option<string>)

  /** The members of a reply's `data` that the client reads, and its JSON text. */
  datatype ReplyBody = ReplyBody(
    text: string,                          // `JSON.stringify(response.data)`
    metadataError: Option<MetadataError>,  // `ResponseMetadata.Error`
    code: Option<int>,                     // `code`
    status: Option<int>,                   // `status`
    message: Option<string>,               // `message`
    data: Option<Payload>)                 // `data`

  /** One HTTP exchange: axios rejected without a response (network error, timeout), or a response arrived. */
  datatype Reply = NoResponse(error: string) | Response(status: int, body: ReplyBody)

  /** What a POST is signed from: the API action, the region the call asked for, and the clock's `toISOString` text. */
  datatype Call = Call(action: string, region: Option<string>, isoNow: string)

  /**
   * A POST with its body text, or a `setTimeout` of `ms` milliseconds. The
   * signed request a POST stands for is `Client.SignedPost` of its call.
   */
  datatype Event = Post(call: Call, body: string) | Wait(ms: nat)

  /** The operations the client borrows from its platform, left uninterpreted. */
  datatype Platform = Platform(
    crypto: Crypto,
    stringify: Json -> string,                 // `JSON.stringify`
    toUpper: string -> string,                 // `String.prototype.toUpperCase`
    parseUrls: string -> Option<seq<string>>)  // `JSON.parse(s).urls` when that is an array

  /** One run's environment: the reply to the k-th POST and the `toISOString` text when it is signed. */
  datatype World = World(platform: Platform, reply: nat -> Reply, clock: nat -> string)

  /** What an operation returned, together with the events it produced. */
  datatype Traced<T> = Traced(trace: seq<Event>, value: T)

  function PostCount(t: seq<Event>): nat
    decreases |t|
  {
    if t == [] then 0 else PostCount(t[..|t| - 1]) + (if t[|t| - 1].Post? then 1 else 0)
  }

  /** The durations of the waits, in order. */
  function WaitTimes(t: seq<Event>): seq<nat>
    decreases |t|
  {
    if t == [] then []
    else WaitTimes(t[..|t| - 1]) + (if t[|t| - 1].Wait? then [t[|t| - 1].ms] else [])
  }

  lemma {:induction false} PostCountAppend(a: seq<Event>, b: seq<Event>)
    ensures PostCount(a + b) == PostCount(a) + PostCount(b)
    decreases |b|
  {
    if b == [] {
      assert a + b == a;
    } else {
      assert (a + b)[..|a + b| - 1] == a + b[..|b| - 1];
      PostCountAppend(a, b[..|b| - 1]);
    }
  }

  lemma {:induction false} WaitTimesAppend(a: seq<Event>, b: seq<Event>)
    ensures WaitTimes(a + b) == WaitTimes(a) + WaitTimes(b)
    decreases |b|
  {
    if b == [] {
      assert a + b == a;
    } else {
      assert (a + b)[..|a + b| - 1] == a + b[..|b| - 1];
      WaitTimesAppend(a, b[..|b| - 1]);
    }
  }

  /** A wait between two stretches of events adds its duration and no POST. */
  lemma WaitBetween(a: seq<Event>, ms: nat, b: seq<Event>)
    ensures WaitTimes(a + [Wait(ms)] + b) == WaitTimes(a) + [ms] + WaitTimes(b)
    ensures PostCount(a + [Wait(ms)] + b) == PostCount(a) + PostCount(b)
  {
    var w := [Wait(ms)];
    assert w[..0] == [];
    WaitTimesAppend(a + w, b);
    WaitTimesAppend(a, w);
    PostCountAppend(a + w, b);
    PostCountAppend(a, w);
  }

  /** A single POST counts once and waits for nothing. */
  lemma SinglePost(t: seq<Event>)
    requires |t| == 1 && t[0].Post?
    ensures PostCount(t) == 1 && WaitTimes(t) == []
  {
    assert t[..0] == [];
  }

  lemma MulSucc(b: nat, q: nat)
    ensures b * (1 + q) == b + b * q
  {
  }

  /** At most `b` POSTs before a wait and at most `b` per step for `q` steps after it: at most `b` per step for all `n` of them. */
  lemma PostsBetween(t: seq<Event>, a: seq<Event>, ms: nat, c: seq<Event>, b: nat, q: nat, n: nat)
    requires t == a + [Wait(ms)] + c && n == 1 + q
    requires PostCount(a) <= b && PostCount(c) <= b * q
    ensures PostCount(t) <= b * n
  {
    WaitBetween(a, ms, c);
    MulSucc(b, q);
  }
}
