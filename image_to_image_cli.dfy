/**
 * The image-to-image command-line script: the index loop over the arguments,
 * which takes the value of a spaced option by consuming the next token, and
 * the split of the reference images into remote URLs and local files.
 */
module ImageToImageCli {
  import opened Wrappers
  import opened Strings
  import opened ImageGeneration

  /** The options that take a value. */
  datatype Field = Model | Width | Height | Size | Region

  /** How the loop reads one token (or a token and its value). */
  datatype Read = SetOption(field: Field, value: string) | NoReturnUrl | Positional(arg: string)

  /** The loop's variables: `modelKey`, `widthValue`, `heightValue`, `sizeValue`, `region`, `returnUrl`, `positionalArgs`. */
  datatype Options = Options(
    model: Option<string>,
    width: Option<int>,
    height: Option<int>,
    size: Option<int>,
    region: string,
    returnUrl: bool,
    positional: seq<string>)

  const DefaultRegion: string := "cn-north-1"
  const MissingPromptMessage: string := "错误: 需要提供提示词，例如 \"修复参考图\""
  const MissingReferenceMessage: string := "错误: 需要至少提供一张参考图片 (本地绝对路径或URL)"
  const MissingKeysMessage: string := "错误: 需要设置环境变量 JIMENG_ACCESS_KEY 和 JIMENG_SECRET_KEY"

  /** The values before the loop. */
  const Initial: Options := Options(None, None, None, None, DefaultRegion, true, [])

  /** The flag of an option, without and with its `=`. */
  function Flag(f: Field): string {
    match f
    case Model => "--model"
    case Width => "--width"
    case Height => "--height"
    case Size => "--size"
    case Region => "--region"
  }

  /**
   * What the loop reads at position `i`, and where it goes on: option by
   * option, the spaced form when a token follows, else the inline form; then
   * `--no-return-url`; anything else is positional.
   */
  function ReadAt(args: seq<string>, i: nat): (r: (Read, nat))
    requires i < |args|
    ensures i < r.1 <= |args| && r.1 <= i + 2
  {
    var arg := args[i];
    if arg == "--model" && i + 1 < |args| then (SetOption(Model, args[i + 1]), i + 2)
    else if StartsWith(arg, "--model=") then (SetOption(Model, arg[|"--model="|..]), i + 1)
    else if arg == "--width" && i + 1 < |args| then (SetOption(Width, args[i + 1]), i + 2)
    else if StartsWith(arg, "--width=") then (SetOption(Width, arg[|"--width="|..]), i + 1)
    else if arg == "--height" && i + 1 < |args| then (SetOption(Height, args[i + 1]), i + 2)
    else if StartsWith(arg, "--height=") then (SetOption(Height, arg[|"--height="|..]), i + 1)
    else if arg == "--size" && i + 1 < |args| then (SetOption(Size, args[i + 1]), i + 2)
    else if StartsWith(arg, "--size=") then (SetOption(Size, arg[|"--size="|..]), i + 1)
    else if arg == "--region" && i + 1 < |args| then (SetOption(Region, args[i + 1]), i + 2)
    else if StartsWith(arg, "--region=") then (SetOption(Region, arg[|"--region="|..]), i + 1)
    else if arg == "--no-return-url" then (NoReturnUrl, i + 1)
    else (Positional(arg), i + 1)
  }

  /** The reads from position `i` to the end of the arguments. */
  function Reads(args: seq<string>, i: nat): seq<Read>
    requires i <= |args|
    decreases |args| - i
  {
    if i == |args| then [] else [ReadAt(args, i).0] + Reads(args, ReadAt(args, i).1)
  }

  /** One read applied to the loop's variables; `parseInt(s, 10)` is `parseInt`. */
  function Apply(o: Options, r: Read, parseInt: string -> int): Options {
    match r
    case SetOption(f, v) =>
      (match f
       case Model => o.(model := Some(v))
       case Width => o.(width := Some(parseInt(v)))
       case Height => o.(height := Some(parseInt(v)))
       case Size => o.(size := Some(parseInt(v)))
       case Region => o.(region := v))
    case NoReturnUrl => o.(returnUrl := false)
    case Positional(a) => o.(positional := o.positional + [a])
  }

  /** The reads applied in order. */
  function Settle(o: Options, rs: seq<Read>, parseInt: string -> int): Options
    decreases |rs|
  {
    if rs == [] then o else Settle(Apply(o, rs[0], parseInt), rs[1..], parseInt)
  }

  /** What the arguments set. */
  function Scan(args: seq<string>, parseInt: string -> int): Options {
    Settle(Initial, Reads(args, 0), parseInt)
  }

  /** The top-level `for` loop over the arguments. */
  method ScanArgs(args: seq<string>, parseInt: string -> int) returns (o: Options)
    ensures o == Scan(args, parseInt)
  {
    o := Initial;
    var i := 0;
    while i < |args|
      invariant 0 <= i <= |args|
      invariant Scan(args, parseInt) == Settle(o, Reads(args, i), parseInt)
      decreases |args| - i
    {
      SettleStep(o, args, i, parseInt);
      o, i := ReadToken(args, i, parseInt, o);
    }
  }

  /**
   * The loop body at `args[i]`: a spaced option takes the next token with
   * `++i`, an inline one the text after its `=`, `--no-return-url` clears
   * `returnUrl`, and anything else is pushed to the positionals.
   */
  method ReadToken(args: seq<string>, i: nat, parseInt: string -> int, o: Options) returns (o': Options, next: nat)
    requires i < |args|
    ensures o' == Apply(o, ReadAt(args, i).0, parseInt) && next == ReadAt(args, i).1
  {
    var arg := args[i];
    next := i;
    o' := o;
    if arg == "--model" && i + 1 < |args| {
      next := next + 1;
      o' := o'.(model := Some(args[next]));
    } else if StartsWith(arg, "--model=") {
      o' := o'.(model := Some(arg[|"--model="|..]));
    } else if arg == "--width" && i + 1 < |args| {
      next := next + 1;
      o' := o'.(width := Some(parseInt(args[next])));
    } else if StartsWith(arg, "--width=") {
      o' := o'.(width := Some(parseInt(arg[|"--width="|..])));
    } else if arg == "--height" && i + 1 < |args| {
      next := next + 1;
      o' := o'.(height := Some(parseInt(args[next])));
    } else if StartsWith(arg, "--height=") {
      o' := o'.(height := Some(parseInt(arg[|"--height="|..])));
    } else if arg == "--size" && i + 1 < |args| {
      next := next + 1;
      o' := o'.(size := Some(parseInt(args[next])));
    } else if StartsWith(arg, "--size=") {
      o' := o'.(size := Some(parseInt(arg[|"--size="|..])));
    } else if arg == "--region" && i + 1 < |args| {
      next := next + 1;
      o' := o'.(region := args[next]);
    } else if StartsWith(arg, "--region=") {
      o' := o'.(region := arg[|"--region="|..]);
    } else if arg == "--no-return-url" {
      o' := o'.(returnUrl := false);
    } else {
      o' := o'.(positional := o'.positional + [arg]);
    }
    next := next + 1;
  }

  /** The first read of the rest, then the rest after it. */
  lemma SettleStep(o: Options, args: seq<string>, i: nat, parseInt: string -> int)
    requires i < |args|
    ensures Settle(o, Reads(args, i), parseInt)
         == Settle(Apply(o, ReadAt(args, i).0, parseInt), Reads(args, ReadAt(args, i).1), parseInt)
  {
    var rs := Reads(args, i);
    assert rs[0] == ReadAt(args, i).0 && rs[1..] == Reads(args, ReadAt(args, i).1);
  }

  // ---------------------------------------------------------------- the forms of an option

  /** `--name value` sets the option to the next token and skips it. */
  lemma SpacedForm(args: seq<string>, i: nat, f: Field)
    requires i + 1 < |args| && args[i] == Flag(f)
    ensures ReadAt(args, i) == (SetOption(f, args[i + 1]), i + 2)
  {
    var arg := args[i];
    match f {
      case Model =>
      case Width => assert arg[2] == 'w';
      case Height => assert arg[2] == 'h';
      case Size => assert arg[2] == 's';
      case Region => assert arg[2] == 'r';
    }
  }

  /** `--name=value` sets the option to the text after the first `=`. */
  lemma InlineForm(args: seq<string>, i: nat, f: Field, v: string)
    requires i < |args| && args[i] == Flag(f) + "=" + v
    ensures ReadAt(args, i) == (SetOption(f, v), i + 1)
  {
    var arg := args[i];
    var p := Flag(f) + "=";
    assert arg[..|p|] == p && arg[|p|..] == v;
    assert |arg| >= |p| && arg[|p| - 1] == '=';
    assert StartsWith(arg, p) && arg != Flag(f);
    match f {
      case Model =>
      case Width =>
        assert arg[2] == 'w';
        assert arg != "--model" && !StartsWith(arg, "--model=");
      case Height =>
        assert arg[2] == 'h';
        assert arg != "--model" && !StartsWith(arg, "--model=");
        assert arg != "--width" && !StartsWith(arg, "--width=");
      case Size =>
        assert arg[2] == 's';
        assert arg != "--model" && !StartsWith(arg, "--model=");
        assert arg != "--width" && !StartsWith(arg, "--width=");
        assert arg != "--height" && !StartsWith(arg, "--height=");
      case Region =>
        assert arg[2] == 'r';
        assert arg != "--model" && !StartsWith(arg, "--model=");
        assert arg != "--width" && !StartsWith(arg, "--width=");
        assert arg != "--height" && !StartsWith(arg, "--height=");
        assert arg != "--size" && !StartsWith(arg, "--size=");
    }
  }

  /** An option flag that is the last token has no value to take and is kept as a positional argument. */
  lemma TrailingFlagIsPositional(args: seq<string>, f: Field)
    requires |args| > 0 && args[|args| - 1] == Flag(f)
    ensures ReadAt(args, |args| - 1) == (Positional(Flag(f)), |args|)
  {
    var arg := args[|args| - 1];
    match f {
      case Model => assert arg[2] == 'm';
      case Width => assert arg[2] == 'w';
      case Height => assert arg[2] == 'h';
      case Size => assert arg[2] == 's';
      case Region => assert arg[2] == 'r';
    }
  }

  // ---------------------------------------------------------------- what the reads leave behind

  /** The positional arguments among the reads, in order. */
  function PositionalsOf(rs: seq<Read>): seq<string>
    decreases |rs|
  {
    if rs == [] then []
    else (if rs[0].Positional? then [rs[0].arg] else []) + PositionalsOf(rs[1..])
  }

  /** The value the last read of an option gives it. */
  function LastValue(rs: seq<Read>, f: Field): (v: Option<string>)
    decreases |rs|
  {
    if rs == [] then None
    else
      var later := LastValue(rs[1..], f);
      if later.Some? then later
      else if rs[0].SetOption? && rs[0].field == f then Some(rs[0].value)
      else None
  }

  /** The last read of an option is the one that sets it. */
  lemma {:induction false} LastValueIsRead(rs: seq<Read>, f: Field)
    requires LastValue(rs, f).Some?
    ensures exists j :: (0 <= j < |rs| && rs[j] == SetOption(f, LastValue(rs, f).value) &&
      forall k :: j < k < |rs| ==> !(rs[k].SetOption? && rs[k].field == f))
    decreases |rs|
  {
    if LastValue(rs[1..], f).Some? {
      LastValueIsRead(rs[1..], f);
      var j :| 0 <= j < |rs[1..]| && rs[1..][j] == SetOption(f, LastValue(rs, f).value) &&
        (forall k :: j < k < |rs[1..]| ==> !(rs[1..][k].SetOption? && rs[1..][k].field == f));
      assert rs[j + 1] == rs[1..][j];
      forall k | j + 1 < k < |rs| ensures !(rs[k].SetOption? && rs[k].field == f) {
        assert rs[k] == rs[1..][k - 1];
      }
    } else {
      forall k | 0 < k < |rs| ensures !(rs[k].SetOption? && rs[k].field == f) {
        assert rs[k] == rs[1..][k - 1];
        NoLaterValue(rs[1..], f, k - 1);
      }
    }
  }

  lemma {:induction false} NoLaterValue(rs: seq<Read>, f: Field, k: nat)
    requires k < |rs| && LastValue(rs, f).None?
    ensures !(rs[k].SetOption? && rs[k].field == f)
    decreases k
  {
    if k > 0 {
      NoLaterValue(rs[1..], f, k - 1);
    }
  }

  /** Applying the reads: the model and the region end with the value of their last read, or keep what they had. */
  lemma {:induction false} SettleText(o: Options, rs: seq<Read>, parseInt: string -> int)
    ensures var r := Settle(o, rs, parseInt);
      && r.model == (if LastValue(rs, Model).Some? then LastValue(rs, Model) else o.model)
      && r.region == (if LastValue(rs, Region).Some? then LastValue(rs, Region).value else o.region)
    decreases |rs|
  {
    if rs != [] {
      SettleText(Apply(o, rs[0], parseInt), rs[1..], parseInt);
    }
  }

  /** Applying the reads: each number option ends with `parseInt` of its last read, or keeps what it had. */
  lemma {:induction false} SettleNumbers(o: Options, rs: seq<Read>, parseInt: string -> int)
    ensures var r := Settle(o, rs, parseInt);
      && r.width == (if LastValue(rs, Width).Some? then Some(parseInt(LastValue(rs, Width).value)) else o.width)
      && r.height == (if LastValue(rs, Height).Some? then Some(parseInt(LastValue(rs, Height).value)) else o.height)
      && r.size == (if LastValue(rs, Size).Some? then Some(parseInt(LastValue(rs, Size).value)) else o.size)
    decreases |rs|
  {
    if rs != [] {
      SettleNumbers(Apply(o, rs[0], parseInt), rs[1..], parseInt);
    }
  }

  /** Applying the reads: any `--no-return-url` clears `returnUrl`, nothing sets it again. */
  lemma {:induction false} SettleReturnUrl(o: Options, rs: seq<Read>, parseInt: string -> int)
    ensures Settle(o, rs, parseInt).returnUrl <==> o.returnUrl && NoReturnUrl !in rs
    decreases |rs|
  {
    if rs != [] {
      SettleReturnUrl(Apply(o, rs[0], parseInt), rs[1..], parseInt);
      assert rs == [rs[0]] + rs[1..];
    }
  }

  /** Applying the reads: the positional arguments are appended in order. */
  lemma {:induction false} SettlePositionals(o: Options, rs: seq<Read>, parseInt: string -> int)
    ensures Settle(o, rs, parseInt).positional == o.positional + PositionalsOf(rs)
    decreases |rs|
  {
    if rs != [] {
      SettlePositionals(Apply(o, rs[0], parseInt), rs[1..], parseInt);
    }
  }

  /** What the arguments set, read off the reads: the defaults are `cn-north-1` and `returnUrl` true. */
  lemma ScanEffect(args: seq<string>, parseInt: string -> int)
    ensures var o := Scan(args, parseInt); var rs := Reads(args, 0);
      && o.model == LastValue(rs, Model)
      && o.region == (if LastValue(rs, Region).Some? then LastValue(rs, Region).value else DefaultRegion)
      && (o.returnUrl <==> NoReturnUrl !in rs)
      && o.positional == PositionalsOf(rs)
  {
    SettleText(Initial, Reads(args, 0), parseInt);
    SettleReturnUrl(Initial, Reads(args, 0), parseInt);
    SettlePositionals(Initial, Reads(args, 0), parseInt);
  }

  /** A token that does not start with `--` is a positional argument. */
  lemma NotOptionIsPositional(args: seq<string>, i: nat)
    requires i < |args| && !StartsWith(args[i], "--")
    ensures ReadAt(args, i) == (Positional(args[i]), i + 1)
  {
  }

  /** Tokens that are not options are all positional arguments, in their order. */
  lemma {:induction false} PlainTokensArePositional(args: seq<string>, i: nat)
    requires i <= |args|
    requires forall k :: 0 <= k < |args| ==> !StartsWith(args[k], "--")
    ensures PositionalsOf(Reads(args, i)) == args[i..]
    decreases |args| - i
  {
    if i < |args| {
      NotOptionIsPositional(args, i);
      PlainTokensArePositional(args, i + 1);
      var rs := Reads(args, i);
      assert rs[1..] == Reads(args, i + 1);
      assert args[i..] == [args[i]] + args[i + 1..];
    }
  }

  // ---------------------------------------------------------------- the references

  /** `/^https?:\/\//i.test(item)`: the scheme `http://` or `https://`, in any case. */
  predicate IsRemote(item: string) {
    StartsWithIgnoringCase(item, "http://") || StartsWithIgnoringCase(item, "https://")
  }

  /** `path.isAbsolute(item) ? item : path.resolve(process.cwd(), item)` for POSIX paths, without normalisation. */
  function Resolved(cwd: string, item: string): string {
    if StartsWith(item, "/") then item else cwd + "/" + item
  }

  /** The remote references, in input order. */
  function Remotes(items: seq<string>): seq<string>
    decreases |items|
  {
    if items == [] then []
    else
      var last := items[|items| - 1];
      Remotes(items[..|items| - 1]) + (if IsRemote(last) then [last] else [])
  }

  /** The local references resolved against `cwd`, in input order. */
  function Locals(items: seq<string>, cwd: string): seq<string>
    decreases |items|
  {
    if items == [] then []
    else
      var last := items[|items| - 1];
      Locals(items[..|items| - 1], cwd) + (if IsRemote(last) then [] else [Resolved(cwd, last)])
  }

  /** The first local reference whose resolved path does not exist. */
  function FirstMissing(items: seq<string>, cwd: string, fileExists: string -> bool): Option<string>
    decreases |items|
  {
    if items == [] then None
    else
      var earlier := FirstMissing(items[..|items| - 1], cwd, fileExists);
      var last := items[|items| - 1];
      if earlier.Some? then earlier
      else if !IsRemote(last) && !fileExists(Resolved(cwd, last)) then Some(Resolved(cwd, last))
      else None
  }

  function MissingFileMessage(path: string): string {
    "错误: 本地图片不存在 -> " + path
  }

  /** The split: the local and the remote lists, or the abort at the first missing file. */
  function Split(items: seq<string>, cwd: string, fileExists: string -> bool): Result<(seq<string>, seq<string>), string> {
    var missing := FirstMissing(items, cwd, fileExists);
    if missing.Some? then Failure(MissingFileMessage(missing.value))
    else Success((Locals(items, cwd), Remotes(items)))
  }

  /** The `for ... of` loop over the references; `fs.existsSync` is `fileExists`. */
  method SplitReferences(items: seq<string>, cwd: string, fileExists: string -> bool)
    returns (r: Result<(seq<string>, seq<string>), string>)
    ensures r == Split(items, cwd, fileExists)
  {
    var localReferences: seq<string> := [];
    var remoteReferences: seq<string> := [];
    for i := 0 to |items|
      invariant localReferences == Locals(items[..i], cwd)
      invariant remoteReferences == Remotes(items[..i])
      invariant FirstMissing(items[..i], cwd, fileExists).None?
    {
      var item := items[i];
      assert items[..i + 1][..i] == items[..i];
      if IsRemote(item) {
        remoteReferences := remoteReferences + [item];
      } else {
        var resolved := Resolved(cwd, item);
        if !fileExists(resolved) {
          MissingStaysFirst(items, cwd, fileExists, i + 1);
          return Failure(MissingFileMessage(resolved));
        }
        localReferences := localReferences + [resolved];
      }
    }
    assert items[..|items|] == items;
    return Success((localReferences, remoteReferences));
  }

  /** A missing file found in a prefix is the first missing file of the whole list. */
  lemma {:induction false} MissingStaysFirst(items: seq<string>, cwd: string, fileExists: string -> bool, n: nat)
    requires n <= |items| && FirstMissing(items[..n], cwd, fileExists).Some?
    ensures FirstMissing(items, cwd, fileExists) == FirstMissing(items[..n], cwd, fileExists)
    decreases |items| - n
  {
    if n < |items| {
      assert items[..n + 1][..n] == items[..n];
      MissingStaysFirst(items, cwd, fileExists, n + 1);
    } else {
      assert items[..n] == items;
    }
  }

  /** Splitting a concatenation splits each part: both lists keep the input order. */
  lemma {:induction false} SplitAppend(a: seq<string>, b: seq<string>, cwd: string)
    ensures Remotes(a + b) == Remotes(a) + Remotes(b)
    ensures Locals(a + b, cwd) == Locals(a, cwd) + Locals(b, cwd)
    decreases |b|
  {
    if b == [] {
      assert a + b == a;
    } else {
      assert (a + b)[..|a + b| - 1] == a + b[..|b| - 1];
      SplitAppend(a, b[..|b| - 1], cwd);
    }
  }

  /** The two lists partition the references: every remote one goes to the first, every other one, resolved, to the second. */
  lemma {:induction false} SplitPartitions(items: seq<string>, cwd: string)
    ensures |Remotes(items)| + |Locals(items, cwd)| == |items|
    ensures forall x :: x in Remotes(items) ==> x in items && IsRemote(x)
    ensures forall j :: 0 <= j < |items| && IsRemote(items[j]) ==> items[j] in Remotes(items)
    ensures forall j :: 0 <= j < |items| && !IsRemote(items[j]) ==> Resolved(cwd, items[j]) in Locals(items, cwd)
    decreases |items|
  {
    if items != [] {
      var init := items[..|items| - 1];
      SplitPartitions(init, cwd);
      forall j | 0 <= j < |items| - 1 ensures items[j] == init[j] {
      }
    }
  }

  /** The split succeeds exactly when every local reference exists. */
  lemma {:induction false} SplitSucceeds(items: seq<string>, cwd: string, fileExists: string -> bool)
    ensures FirstMissing(items, cwd, fileExists).None?
        <==> forall j :: 0 <= j < |items| && !IsRemote(items[j]) ==> fileExists(Resolved(cwd, items[j]))
    decreases |items|
  {
    if items != [] {
      var init := items[..|items| - 1];
      SplitSucceeds(init, cwd, fileExists);
      forall j | 0 <= j < |items| - 1 ensures items[j] == init[j] {
      }
    }
  }

  /** The reported file is a local reference that does not exist, and every earlier local one exists. */
  lemma {:induction false} MissingIsFirst(items: seq<string>, cwd: string, fileExists: string -> bool)
    requires FirstMissing(items, cwd, fileExists).Some?
    ensures exists j :: (0 <= j < |items| && !IsRemote(items[j])
      && FirstMissing(items, cwd, fileExists).value == Resolved(cwd, items[j]) && !fileExists(Resolved(cwd, items[j]))
      && forall k :: 0 <= k < j && !IsRemote(items[k]) ==> fileExists(Resolved(cwd, items[k])))
    decreases |items|
  {
    var init := items[..|items| - 1];
    forall k | 0 <= k < |items| - 1 ensures items[k] == init[k] {
    }
    if FirstMissing(init, cwd, fileExists).Some? {
      MissingIsFirst(init, cwd, fileExists);
    } else {
      SplitSucceeds(init, cwd, fileExists);
      assert !IsRemote(items[|items| - 1]);
    }
  }

  /** The scheme is matched without regard to case; anything else, including absolute paths, is local. */
  lemma RemoteSchemes(rest: string)
    ensures IsRemote("HtTpS://" + rest) && IsRemote("http://" + rest)
    ensures !IsRemote("/" + rest) && !IsRemote("ftp://" + rest)
  {
    var a := "HtTpS://" + rest;
    assert a[..8] == "HtTpS://";
    var b := "http://" + rest;
    assert b[..7] == "http://";
    var c := "/" + rest;
    assert LowerAscii(c[0]) != LowerAscii('h');
    var d := "ftp://" + rest;
    assert LowerAscii(d[0]) != LowerAscii('h');
  }

  // ---------------------------------------------------------------- the script

  /** The object the script passes to `generateImage`. */
  datatype Request = Request(
    prompt: string,
    reqKey: Option<string>,
    width: Option<int>,
    height: Option<int>,
    size: Option<int>,
    region: string,
    returnUrl: bool,
    imageUrls: Option<seq<string>>,
    imagePaths: Option<seq<string>>,
    forceSingle: bool)

  /** The script aborts with a message, or calls `generateImage` with a request. */
  datatype Outcome = Abort(message: string) | Generate(request: Request)

  /** `list.length > 0 ? list : undefined` */
  function NonEmpty(list: seq<string>): (r: Option<seq<string>>)
    ensures r.Some? <==> |list| > 0
    ensures r.Some? ==> r.value == list
  {
    if |list| > 0 then Some(list) else None
  }

  /** Both `JIMENG_ACCESS_KEY` and `JIMENG_SECRET_KEY` are set and not empty. */
  predicate KeysSet(env: map<string, string>) {
    Truthy(Get(env, "JIMENG_ACCESS_KEY")) && Truthy(Get(env, "JIMENG_SECRET_KEY"))
  }

  /** What the script does with its arguments, environment and file system, up to the call. */
  function Invocation(args: seq<string>, env: map<string, string>, cwd: string,
                      fileExists: string -> bool, parseInt: string -> int): Outcome
  {
    var o := Scan(args, parseInt);
    if |o.positional| == 0 || o.positional[0] == "" then Abort(MissingPromptMessage)
    else if |o.positional| == 1 then Abort(MissingReferenceMessage)
    else if !KeysSet(env) then Abort(MissingKeysMessage)
    else
      match Split(o.positional[1..], cwd, fileExists)
      case Failure(m) => Abort(m)
      case Success((local, remote)) =>
        Generate(Request(o.positional[0], o.model, o.width, o.height, o.size, o.region, o.returnUrl,
                         NonEmpty(remote), NonEmpty(local), false))
  }

  /** The script from its argument loop to the request it sends; `process.exit(1)` is the abort. */
  method RunScript(args: seq<string>, env: map<string, string>, cwd: string,
                   fileExists: string -> bool, parseInt: string -> int) returns (outcome: Outcome)
    ensures outcome == Invocation(args, env, cwd, fileExists, parseInt)
  {
    var o := ScanArgs(args, parseInt);
    var positionalArgs := o.positional;
    if |positionalArgs| == 0 || positionalArgs[0] == "" {
      return Abort(MissingPromptMessage);
    }
    var prompt := positionalArgs[0];
    var referenceInputs := positionalArgs[1..];
    if |referenceInputs| == 0 {
      return Abort(MissingReferenceMessage);
    }
    if !KeysSet(env) {
      return Abort(MissingKeysMessage);
    }
    var split := SplitReferences(referenceInputs, cwd, fileExists);
    if split.Failure? {
      return Abort(split.error);
    }
    var (localReferences, remoteReferences) := split.value;
    outcome := Generate(Request(prompt, o.model, o.width, o.height, o.size, o.region, o.returnUrl,
                                NonEmpty(remoteReferences), NonEmpty(localReferences), false));
  }

  /**
   * The script calls the client exactly when there is a non-empty prompt, at
   * least one reference, both keys, and every local reference exists; the
   * prompt is the first positional argument and the references the rest.
   */
  lemma InvocationCases(args: seq<string>, env: map<string, string>, cwd: string,
                        fileExists: string -> bool, parseInt: string -> int)
    ensures var out := Invocation(args, env, cwd, fileExists, parseInt);
      var pos := Scan(args, parseInt).positional;
      && (out.Generate? <==>
            |pos| >= 2 && pos[0] != "" && KeysSet(env)
            && forall j :: 1 <= j < |pos| && !IsRemote(pos[j]) ==> fileExists(Resolved(cwd, pos[j])))
      && (out.Generate? ==>
            && out.request.prompt == pos[0]
            && out.request.imageUrls == NonEmpty(Remotes(pos[1..]))
            && out.request.imagePaths == NonEmpty(Locals(pos[1..], cwd))
            && !out.request.forceSingle)
      && (out == Abort(MissingPromptMessage) <==> |pos| == 0 || pos[0] == "")
  {
    var pos := Scan(args, parseInt).positional;
    if |pos| >= 2 {
      SplitSucceeds(pos[1..], cwd, fileExists);
      assert forall j :: 1 <= j < |pos| ==> pos[j] == pos[1..][j - 1];
      assert forall j :: 0 <= j < |pos| - 1 ==> pos[1..][j] == pos[j + 1];
    }
    MessagesDiffer();
  }

  lemma MessagesDiffer()
    ensures MissingPromptMessage != MissingReferenceMessage && MissingPromptMessage != MissingKeysMessage
    ensures MissingReferenceMessage != MissingKeysMessage
    ensures forall p :: MissingFileMessage(p) != MissingPromptMessage
    ensures forall p :: MissingFileMessage(p) != MissingReferenceMessage
    ensures forall p :: MissingFileMessage(p) != MissingKeysMessage
  {
    assert MissingPromptMessage[6] == '提';
    assert MissingReferenceMessage[6] == '至' && MissingKeysMessage[6] == '设';
    assert MissingPromptMessage[4] == '需' && MissingReferenceMessage[4] == '需' && MissingKeysMessage[4] == '需';
    forall p ensures MissingFileMessage(p)[4] == '本' {
    }
  }

  /** The members of the request that the client's `generateImage` reads. */
  function ClientParams(r: Request): ImageParams {
    ImageParams(Some(r.prompt), None, r.width, r.height, Some(r.returnUrl), r.reqKey, Some(r.region))
  }

  /** The references, the size and `force_single` never reach the request body the client sends. */
  lemma ReferencesNotSent(r: Request)
    ensures forall f :: f in BodyFields(ClientParams(r), r.prompt) ==>
      f.0 != "image_urls" && f.0 != "image_paths" && f.0 != "size" && f.0 != "force_single"
  {
    var fields := BodyFields(ClientParams(r), r.prompt);
    forall f | f in fields
      ensures f.0 != "image_urls" && f.0 != "image_paths" && f.0 != "size" && f.0 != "force_single"
    {
      var names := ["req_key", "prompt", "return_url", "width", "height", "negative_prompt"];
      assert f.0 in names;
      assert forall n :: n in names ==> n[0] != 'i' && n[0] != 'f' && n != "size";
    }
  }
}
