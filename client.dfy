/**
 * The Jimeng client's configuration, its construction and the pieces every
 * API operation shares: the action query, the signed POST, and the look-ups
 * of optional reply members.
 */
module Client {
  import opened Wrappers
  import opened Strings
  import opened Signer
  import opened Wire

  /** The options a caller may pass; every member is optional. */
  datatype Config = Config(
    accessKey: Option<string>,
    secretKey: Option<string>,
    endpoint: Option<string>,
    host: Option<string>,
    region: Option<string>,
    service: Option<string>,
    debug: Option<bool>,
    timeout: Option<int>,
    retries: Option<int>)

  /** A constructed client. None of its fields changes after construction. */
  datatype Client = Client(cred: Credentials, debug: bool, timeout: int, retries: int)

  const DefaultEndpoint: string := "https://visual.volcengineapi.com"
  const DefaultHost: string := "visual.volcengineapi.com"
  const DefaultRegion: string := "cn-north-1"
  const DefaultService: string := "cv"
  const DefaultTimeout: int := 30000
  const DefaultRetries: int := 3
  const ApiVersion: string := "2022-08-31"
  const MissingConfigMessage: string := "缺少必要的配置: accessKey 和 secretKey"
  const UnknownError: string := "未知错误"

  /** JavaScript's `n || d` on a number that may be absent: absent and 0 fall back. */
  function NumberOr(n: Option<int>, d: int): (r: int)
    ensures n.Some? && n.value != 0 ==> r == n.value
    ensures n.None? || n.value == 0 ==> r == d
  {
    if n.Some? && n.value != 0 then n.value else d
  }

  /** `config.x || env.X || ''` */
  function Resolve(configured: Option<string>, environment: Option<string>): (r: string)
    ensures Truthy(configured) ==> r == configured.value
    ensures !Truthy(configured) && Truthy(environment) ==> r == environment.value
    ensures r == "" <==> !Truthy(configured) && !Truthy(environment)
  {
    OrDefault(configured, OrDefault(environment, ""))
  }

  /**
   * The constructor: the keys come from the configuration, else from the
   * environment variables `JIMENG_ACCESS_KEY` and `JIMENG_SECRET_KEY`;
   * construction fails when either resolves to the empty string.
   */
  function NewClient(config: Config, envAccessKey: Option<string>, envSecretKey: Option<string>): (r: Result<Client, string>)
    ensures r.Success? <==> (Truthy(config.accessKey) || Truthy(envAccessKey)) && (Truthy(config.secretKey) || Truthy(envSecretKey))
    ensures r.Failure? ==> r.error == MissingConfigMessage
    ensures r.Success? ==>
      && r.value.cred.accessKey == Resolve(config.accessKey, envAccessKey) != ""
      && r.value.cred.secretKey == Resolve(config.secretKey, envSecretKey) != ""
      && r.value.cred.endpoint == OrDefault(config.endpoint, DefaultEndpoint)
      && r.value.cred.host == OrDefault(config.host, DefaultHost)
      && r.value.cred.region == OrDefault(config.region, DefaultRegion)
      && r.value.cred.service == OrDefault(config.service, DefaultService)
      && (r.value.debug <==> config.debug == Some(true))
      && r.value.timeout == NumberOr(config.timeout, DefaultTimeout)
      && r.value.retries == NumberOr(config.retries, DefaultRetries)
  {
    var accessKey := Resolve(config.accessKey, envAccessKey);
    var secretKey := Resolve(config.secretKey, envSecretKey);
    if accessKey == "" || secretKey == "" then Failure(MissingConfigMessage)
    else
      Success(Client(
        Credentials(accessKey, secretKey,
          OrDefault(config.endpoint, DefaultEndpoint),
          OrDefault(config.host, DefaultHost),
          OrDefault(config.region, DefaultRegion),
          OrDefault(config.service, DefaultService)),
        config.debug == Some(true),
        NumberOr(config.timeout, DefaultTimeout),
        NumberOr(config.retries, DefaultRetries)))
  }

  /** A retry count of 0 is falsy, so a client asked for no retries gets the default three. */
  lemma ZeroRetriesBecomeThree(config: Config, envAccessKey: Option<string>, envSecretKey: Option<string>)
    requires config.retries == Some(0)
    requires NewClient(config, envAccessKey, envSecretKey).Success?
    ensures NewClient(config, envAccessKey, envSecretKey).value.retries == 3
  {
  }

  /** The query string of an API action: `Action=<action>&Version=2022-08-31`. */
  function ActionQuery(action: string): (q: string)
    ensures q == "Action" + "=" + action + "&" + "Version" + "=" + ApiVersion
  {
    ActionVersionQuery(action, ApiVersion);
    FormatQuery(map["Action" := action, "Version" := ApiVersion])
  }

  /** The POST of one API call: the JSON text of its body, signed for `region` at the clock's current reading. */
  function ApiPost(c: Client, w: World, action: string, body: Json, region: Option<string>, calls: nat): (e: Event)
    ensures e.Post? && e.body == w.platform.stringify(body)
    ensures e.call.action == action && e.call.region == region && e.call.isoNow == w.clock(calls)
  {
    Post(Call(action, region, w.clock(calls)), w.platform.stringify(body))
  }

  /**
   * The signed request a POST event stands for: the action's query on the
   * client's endpoint, with the Signature V4 headers for the call's region and time.
   */
  function SignedPost(c: Client, crypto: Crypto, call: Call, body: string): (r: SignedRequest)
    ensures r.url == c.cred.endpoint + "?" + ActionQuery(call.action)
    ensures r.headers.xDate == CompactTimestamp(call.isoNow)
    ensures r.headers.xContentSha256 == crypto.sha256Hex(body)
  {
    SignV4(c.cred, crypto, ActionQuery(call.action), body, call.region, call.isoNow)
  }

  /** The signed request of an API call's POST: the action's URL, the clock's reading and the JSON text's hash. */
  lemma ApiPostSigned(c: Client, crypto: Crypto, w: World, action: string, body: Json, region: Option<string>, calls: nat)
    ensures var e := ApiPost(c, w, action, body, region, calls);
      var req := SignedPost(c, crypto, e.call, e.body);
      && req.url == c.cred.endpoint + "?" + ActionQuery(action)
      && req.headers.xDate == CompactTimestamp(w.clock(calls))
      && req.headers.xContentSha256 == crypto.sha256Hex(w.platform.stringify(body))
  {
  }

  /** A template literal's rendering of an optional string: absent prints as `undefined`. */
  function Shown(s: Option<string>): (r: string)
    ensures s.Some? ==> r == s.value
    ensures s.None? ==> r == "undefined"
  {
    if s.Some? then s.value else "undefined"
  }

  /** A template literal's rendering of an optional number. */
  function ShownNumber(n: Option<int>): (r: string)
    ensures n.Some? ==> r == DecimalString(n.value)
    ensures n.None? ==> r == "undefined"
  {
    if n.Some? then DecimalString(n.value) else "undefined"
  }

  /** `data.data.task_id`, absent when either level is absent. */
  function TaskIdOf(b: ReplyBody): (r: Option<string>)
    ensures r.Some? <==> b.data.Some? && b.data.value.taskId.Some?
    ensures r.Some? ==> r.value == b.data.value.taskId.value
  {
    if b.data.Some? then b.data.value.taskId else None
  }

  /** The error message axios rejects with when its default status check fails (any non-2xx status). */
  function StatusRejection(status: int): string {
    "Request failed with status code " + DecimalString(status)
  }

  /** The HTTP error the video operations throw, with the reply's JSON text. */
  function HttpErrorWithDetail(status: int, b: ReplyBody): string {
    "HTTP错误! 状态码: " + DecimalString(status) + "，详细信息: " + b.text
  }

  /**
   * `verifyKeys`: the required keys that are not among the given keys, in the
   * order of `required`.
   */
  function VerifyKeys(keys: seq<string>, required: seq<string>): (missing: seq<string>)
    ensures forall k :: k in missing <==> k in required && k !in keys
    ensures |missing| <= |required|
    ensures missing == [] <==> forall k :: k in required ==> k in keys
    ensures forall k :: multiset(missing)[k] == if k in keys then 0 else multiset(required)[k]
    decreases |required|
  {
    if required == [] then []
    else
      var rest := VerifyKeys(keys, required[1..]);
      assert forall k :: k in required <==> k == required[0] || k in required[1..];
      assert multiset(required) == multiset([required[0]]) + multiset(required[1..]) by {
        assert required == [required[0]] + required[1..];
      }
      if required[0] in keys then rest else [required[0]] + rest
  }

  /** The missing keys keep the order they have in `required`: they are a sub-sequence of it. */
  lemma {:induction false} VerifyKeysKeepsOrder(keys: seq<string>, required: seq<string>)
    ensures IsSubsequence(VerifyKeys(keys, required), required)
    decreases |required|
  {
    if required != [] {
      VerifyKeysKeepsOrder(keys, required[1..]);
      var rest := VerifyKeys(keys, required[1..]);
      if required[0] !in keys {
        assert ([required[0]] + rest)[1..] == rest;
      }
    }
  }

  predicate IsSubsequence(a: seq<string>, b: seq<string>)
    decreases |b|
  {
    if a == [] then true
    else if b == [] then false
    else if a[0] == b[0] then IsSubsequence(a[1..], b[1..])
    else IsSubsequence(a, b[1..])
  }
}
