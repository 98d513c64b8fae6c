/**
 * The text-to-image command-line script: the index loop that picks out the
 * `--model` option, the defaults of the positional arguments that follow,
 * the model taken from the fifth positional, and the watermark option.
 */
module ImageGeneratorCli {
  import opened Wrappers
  import opened Strings
  import opened ImageGeneration

  /** How the loop reads one token (or `--model` and its value). */
  datatype Read = SetModel(value: string) | Positional(arg: string)

  /** The `logo_info` object: `add_logo`, `position`, `language`, `opacity`, `logo_text_content`. */
  datatype LogoInfo = LogoInfo(addLogo: bool, position: int, language: int, opacity: int, text: string)

  /** The object the script passes to `generateImage`. */
  datatype Request = Request(
    prompt: string,
    width: int,
    height: int,
    forceSingle: bool,
    region: string,
    reqKey: Option<string>,
    logoInfo: Option<LogoInfo>)

  /** The script aborts with a message, or calls `generateImage` with a request. */
  datatype Outcome = Abort(message: string) | Generate(request: Request)

  const DefaultPrompt: string := "一只可爱的熊猫，坐在竹林中，吃着竹子，阳光照射，高清细节，写实风格"
  const DefaultSide: string := "2048"
  const DefaultRegion: string := "cn-north-1"
  const MissingKeysMessage: string := "错误: 需要设置环境变量 JIMENG_ACCESS_KEY 和 JIMENG_SECRET_KEY"

  /** What the loop reads at position `i`, and where it goes on. */
  function ReadAt(args: seq<string>, i: nat): (r: (Read, nat))
    requires i < |args|
    ensures i < r.1 <= |args| && r.1 <= i + 2
  {
    var arg := args[i];
    if arg == "--model" && i + 1 < |args| then (SetModel(args[i + 1]), i + 2)
    else if StartsWith(arg, "--model=") then (SetModel(arg[|"--model="|..]), i + 1)
    else (Positional(arg), i + 1)
  }

  /** The reads from position `i` to the end of the arguments. */
  function Reads(args: seq<string>, i: nat): seq<Read>
    requires i <= |args|
    decreases |args| - i
  {
    if i == |args| then [] else [ReadAt(args, i).0] + Reads(args, ReadAt(args, i).1)
  }

  /** The model the last `--model` read gives, if any. */
  function LastModel(rs: seq<Read>): Option<string>
    decreases |rs|
  {
    if rs == [] then None
    else
      var later := LastModel(rs[1..]);
      if later.Some? then later else if rs[0].SetModel? then Some(rs[0].value) else None
  }

  /** The positional arguments among the reads, in order. */
  function PositionalsOf(rs: seq<Read>): seq<string>
    decreases |rs|
  {
    if rs == [] then []
    else (if rs[0].Positional? then [rs[0].arg] else []) + PositionalsOf(rs[1..])
  }

  /** The loop's variables `modelKey` and `positionalArgs`. */
  datatype Scanned = Scanned(modelKey: Option<string>, positional: seq<string>)

  /** One read applied to the loop's variables. */
  function Apply(o: Scanned, r: Read): Scanned {
    match r
    case SetModel(v) => o.(modelKey := Some(v))
    case Positional(a) => o.(positional := o.positional + [a])
  }

  /** The reads applied in order. */
  function Settle(o: Scanned, rs: seq<Read>): Scanned
    decreases |rs|
  {
    if rs == [] then o else Settle(Apply(o, rs[0]), rs[1..])
  }

  /** What the arguments set. */
  function Scan(args: seq<string>): Scanned {
    Settle(Scanned(None, []), Reads(args, 0))
  }

  /** The top-level `for` loop over the arguments. */
  method ScanArgs(args: seq<string>) returns (o: Scanned)
    ensures o == Scan(args)
  {
    o := Scanned(None, []);
    var i := 0;
    while i < |args|
      invariant 0 <= i <= |args|
      invariant Scan(args) == Settle(o, Reads(args, i))
      decreases |args| - i
    {
      SettleStep(o, args, i);
      o, i := ReadToken(args, i, o);
    }
  }

  /** The loop body at `args[i]`: `--model` takes the next token with `i++`, `--model=` its suffix, anything else is pushed. */
  method ReadToken(args: seq<string>, i: nat, o: Scanned) returns (o': Scanned, next: nat)
    requires i < |args|
    ensures o' == Apply(o, ReadAt(args, i).0) && next == ReadAt(args, i).1
  {
    var arg := args[i];
    next := i;
    o' := o;
    if arg == "--model" && i + 1 < |args| {
      o' := o'.(modelKey := Some(args[i + 1]));
      next := next + 1;
    } else if StartsWith(arg, "--model=") {
      o' := o'.(modelKey := Some(arg[|"--model="|..]));
    } else {
      o' := o'.(positional := o'.positional + [arg]);
    }
    next := next + 1;
  }

  /** The first read of the rest, then the rest after it. */
  lemma SettleStep(o: Scanned, args: seq<string>, i: nat)
    requires i < |args|
    ensures Settle(o, Reads(args, i)) == Settle(Apply(o, ReadAt(args, i).0), Reads(args, ReadAt(args, i).1))
  {
    var rs := Reads(args, i);
    assert rs[0] == ReadAt(args, i).0 && rs[1..] == Reads(args, ReadAt(args, i).1);
  }

  /** Applying the reads: the model is the last one read, the positional arguments are appended in order. */
  lemma {:induction false} SettleEffect(o: Scanned, rs: seq<Read>)
    ensures Settle(o, rs).modelKey == (if LastModel(rs).Some? then LastModel(rs) else o.modelKey)
    ensures Settle(o, rs).positional == o.positional + PositionalsOf(rs)
    decreases |rs|
  {
    if rs != [] {
      SettleEffect(Apply(o, rs[0]), rs[1..]);
    }
  }

  /** `positionalArgs[k]`, undefined past the end. */
  function At(pos: seq<string>, k: nat): (r: Option<string>)
    ensures r.Some? <==> k < |pos|
    ensures r.Some? ==> r.value == pos[k]
  {
    if k < |pos| then Some(pos[k]) else None
  }

  /** `!modelKey && positionalArgs.length > 4`: no usable `--model`, and a fifth positional to take instead. */
  function ResolvedModel(modelKey: Option<string>, pos: seq<string>): (m: Option<string>)
  {
    if !Truthy(modelKey) && |pos| > 4 then Some(pos[4]) else modelKey
  }

  /** `watermarkText ? { add_logo: true, position: 0, language: 0, opacity: 1, logo_text_content } : undefined` */
  function Logo(watermarkText: Option<string>): Option<LogoInfo> {
    if Truthy(watermarkText) then Some(LogoInfo(true, 0, 0, 1, watermarkText.value)) else None
  }

  /** Both `JIMENG_ACCESS_KEY` and `JIMENG_SECRET_KEY` are set and not empty. */
  predicate KeysSet(env: map<string, string>) {
    Truthy(Get(env, "JIMENG_ACCESS_KEY")) && Truthy(Get(env, "JIMENG_SECRET_KEY"))
  }

  /** What the script does with its arguments and environment, up to the call; `parseInt(s, 10)` is `parseInt`. */
  function Invocation(args: seq<string>, env: map<string, string>, parseInt: string -> int): Outcome {
    var o := Scan(args);
    var pos := o.positional;
    if !KeysSet(env) then Abort(MissingKeysMessage)
    else
      Generate(Request(
        OrDefault(At(pos, 0), DefaultPrompt),
        parseInt(OrDefault(At(pos, 1), DefaultSide)),
        parseInt(OrDefault(At(pos, 2), DefaultSide)),
        true,
        DefaultRegion,
        ResolvedModel(o.modelKey, pos),
        Logo(At(pos, 3))))
  }

  /** The script from its argument loop to the request it sends; `process.exit(1)` is the abort. */
  method RunScript(args: seq<string>, env: map<string, string>, parseInt: string -> int) returns (outcome: Outcome)
    ensures outcome == Invocation(args, env, parseInt)
  {
    var o := ScanArgs(args);
    var modelKey, positionalArgs := o.modelKey, o.positional;
    var prompt := OrDefault(At(positionalArgs, 0), DefaultPrompt);
    var width := parseInt(OrDefault(At(positionalArgs, 1), DefaultSide));
    var height := parseInt(OrDefault(At(positionalArgs, 2), DefaultSide));
    var watermarkText := At(positionalArgs, 3);
    if !Truthy(modelKey) && |positionalArgs| > 4 {
      modelKey := Some(positionalArgs[4]);
    }
    if !KeysSet(env) {
      return Abort(MissingKeysMessage);
    }
    outcome := Generate(Request(prompt, width, height, true, DefaultRegion, modelKey, Logo(watermarkText)));
  }

  // ---------------------------------------------------------------- the loop

  /** `--model value` sets the model and skips the value; `--model=value` sets it to the suffix. */
  lemma ModelForms(args: seq<string>, i: nat, v: string)
    requires i < |args|
    ensures args[i] == "--model" && i + 1 < |args| ==> ReadAt(args, i) == (SetModel(args[i + 1]), i + 2)
    ensures args[i] == "--model=" + v ==> ReadAt(args, i) == (SetModel(v), i + 1)
  {
    if args[i] == "--model=" + v {
      assert args[i][..|"--model="|] == "--model=" && args[i][|"--model="|..] == v;
    }
  }

  /** A `--model` that is the last token has no value to take and is kept as a positional argument. */
  lemma TrailingModelIsPositional(args: seq<string>)
    requires |args| > 0 && args[|args| - 1] == "--model"
    ensures ReadAt(args, |args| - 1) == (Positional("--model"), |args|)
  {
  }

  /** What the arguments set: the last `--model` read, and every other token in order. */
  lemma ScanEffect(args: seq<string>)
    ensures Scan(args).modelKey == LastModel(Reads(args, 0))
    ensures Scan(args).positional == PositionalsOf(Reads(args, 0))
  {
    SettleEffect(Scanned(None, []), Reads(args, 0));
  }

  /** Without `--model` tokens every argument is positional, in order, and no model is set. */
  lemma {:induction false} PlainTokensArePositional(args: seq<string>, i: nat)
    requires i <= |args|
    requires forall k :: i <= k < |args| ==> args[k] != "--model" && !StartsWith(args[k], "--model=")
    ensures PositionalsOf(Reads(args, i)) == args[i..]
    ensures LastModel(Reads(args, i)).None?
    decreases |args| - i
  {
    if i < |args| {
      PlainTokensArePositional(args, i + 1);
      var rs := Reads(args, i);
      assert rs[0] == Positional(args[i]) && rs[1..] == Reads(args, i + 1);
      assert args[i..] == [args[i]] + args[i + 1..];
    }
  }

  // ---------------------------------------------------------------- the request

  /** The prompt is the first positional argument when it is not empty, else the panda default; it is never empty. */
  lemma PromptDefault(args: seq<string>, env: map<string, string>, parseInt: string -> int)
    requires KeysSet(env)
    ensures var req := Invocation(args, env, parseInt).request; var pos := Scan(args).positional;
      && req.prompt != ""
      && (|pos| > 0 && pos[0] != "" ==> req.prompt == pos[0])
      && (|pos| == 0 || pos[0] == "" ==> req.prompt == DefaultPrompt)
  {
  }

  /** Width and height are `parseInt` of the second and third positionals, or of `"2048"` when those are absent or empty. */
  lemma SideDefaults(args: seq<string>, env: map<string, string>, parseInt: string -> int)
    requires KeysSet(env) && parseInt(DefaultSide) == 2048
    ensures var req := Invocation(args, env, parseInt).request; var pos := Scan(args).positional;
      && (|pos| < 2 || pos[1] == "" ==> req.width == 2048)
      && (|pos| < 3 || pos[2] == "" ==> req.height == 2048)
      && (|pos| >= 2 && pos[1] != "" ==> req.width == parseInt(pos[1]))
      && (|pos| >= 3 && pos[2] != "" ==> req.height == parseInt(pos[2]))
  {
  }

  /**
   * The model: a non-empty `--model` always wins; otherwise the fifth
   * positional when there is one; otherwise whatever `--model` gave (possibly `""`).
   */
  lemma ModelFallback(args: seq<string>, env: map<string, string>, parseInt: string -> int)
    requires KeysSet(env)
    ensures var req := Invocation(args, env, parseInt).request; var o := Scan(args);
      && (Truthy(o.modelKey) ==> req.reqKey == o.modelKey)
      && (!Truthy(o.modelKey) && |o.positional| > 4 ==> req.reqKey == Some(o.positional[4]))
      && (|o.positional| <= 4 ==> req.reqKey == o.modelKey)
  {
  }

  /** An empty inline model counts as none: with five positionals the fifth is used. */
  lemma EmptyInlineModelFallsBack(env: map<string, string>, parseInt: string -> int)
    requires KeysSet(env)
    ensures Invocation(["--model=", "p", "w", "h", "t", "m"], env, parseInt).request.reqKey == Some("m")
  {
    var args := ["--model=", "p", "w", "h", "t", "m"];
    assert args[0] == "--model=" + "";
    ModelForms(args, 0, "");
    forall k | 1 <= k < |args| ensures args[k] != "--model" && !StartsWith(args[k], "--model=") {
      assert |args[k]| == 1;
    }
    PlainTokensArePositional(args, 1);
    var rs := Reads(args, 0);
    assert rs == [SetModel("")] + Reads(args, 1);
    assert rs[1..] == Reads(args, 1);
    ScanEffect(args);
    assert args[1..] == ["p", "w", "h", "t", "m"];
  }

  /** `logo_info` is sent exactly when a non-empty fourth positional gives the watermark text. */
  lemma LogoOnlyWithWatermark(args: seq<string>, env: map<string, string>, parseInt: string -> int)
    requires KeysSet(env)
    ensures var req := Invocation(args, env, parseInt).request; var pos := Scan(args).positional;
      && (req.logoInfo.Some? <==> |pos| > 3 && pos[3] != "")
      && (req.logoInfo.Some? ==> req.logoInfo.value == LogoInfo(true, 0, 0, 1, pos[3]))
  {
  }

  /** The script stops before any request exactly when a key is missing. */
  lemma AbortsOnlyWithoutKeys(args: seq<string>, env: map<string, string>, parseInt: string -> int)
    ensures Invocation(args, env, parseInt).Abort? <==> !KeysSet(env)
    ensures Invocation(args, env, parseInt).Abort? ==> Invocation(args, env, parseInt).message == MissingKeysMessage
    ensures Invocation(args, env, parseInt).Generate? ==>
      Invocation(args, env, parseInt).request.forceSingle && Invocation(args, env, parseInt).request.region == DefaultRegion
  {
  }

  /** The members of the request that the client's `generateImage` reads. */
  function ClientParams(r: Request): ImageParams {
    ImageParams(Some(r.prompt), None, Some(r.width), Some(r.height), None, r.reqKey, Some(r.region))
  }

  /** The client always gets a prompt, and neither `logo_info` nor `force_single` reaches the body it sends. */
  lemma LogoNotSent(r: Request)
    requires r.prompt != ""
    ensures Truthy(ClientParams(r).prompt)
    ensures forall f :: f in BodyFields(ClientParams(r), r.prompt) ==> f.0 != "logo_info" && f.0 != "force_single"
  {
    var fields := BodyFields(ClientParams(r), r.prompt);
    forall f | f in fields ensures f.0 != "logo_info" && f.0 != "force_single" {
      var names := ["req_key", "prompt", "return_url", "width", "height", "negative_prompt"];
      assert f.0 in names;
      assert forall n :: n in names ==> n[0] != 'l' && n[0] != 'f';
    }
  }
}
