/**
 * The silent `.env` loader: every `KEY=VALUE` line of the file is copied into
 * the process environment and into the returned map; blank lines, comment
 * lines and lines without `=` are skipped.
 */
module DotEnv {
  import opened Wrappers
  import opened Strings
  import opened Assoc

  /** What reading the file gives: it does not exist, reading it throws, or its text. */
  datatype FileState = Missing | Unreadable | Text(content: string)

  /** `{ parsed }` together with the process environment afterwards. */
  datatype Loaded = Loaded(parsed: Option<map<string, string>>, env: map<string, string>)

  /** `options.path || path.resolve(process.cwd(), '.env')` */
  function EnvFilePath(path: Option<string>, cwd: string): (r: string)
    ensures Truthy(path) ==> r == path.value
    ensures !Truthy(path) ==> r == cwd + "/.env"
  {
    OrDefault(path, cwd + "/.env")
  }

  predicate Quoted(v: string, q: char) {
    StartsWith(v, [q]) && EndsWith(v, [q])
  }

  /**
   * Removes one pair of enclosing double or single quotes. A value that is a
   * single quote character on its own both starts and ends with it and stays as it is.
   */
  function StripQuotes(v: string): (r: string)
    ensures |v| >= 2 && (Quoted(v, '"') || Quoted(v, '\'')) ==> r == v[1..|v| - 1]
    ensures |v| < 2 || !(Quoted(v, '"') || Quoted(v, '\'')) ==> r == v
  {
    if Quoted(v, '"') then JsSubstring(v, 1, |v| - 1)
    else if Quoted(v, '\'') then JsSubstring(v, 1, |v| - 1)
    else v
  }

  /** What one line of the file defines, if anything. */
  function LineEntry(line: string): Option<(string, string)> {
    TrimmedEntry(Trim(line))
  }

  /**
   * The entry of a trimmed line: none for an empty or `#` line, none without
   * `=`, else the trimmed text before the first `=` and the trimmed, unquoted
   * text after it.
   */
  function TrimmedEntry(t: string): (r: Option<(string, string)>)
    ensures r.Some? <==> t != "" && !StartsWith(t, "#") && '=' in t
    ensures r.Some? ==>
      && r.value.0 == Trim(t[..IndexOf(t, '=')])
      && r.value.1 == StripQuotes(Trim(t[IndexOf(t, '=') + 1..]))
  {
    if t == "" || StartsWith(t, "#") then None
    else
      var parts := SplitOn(t, '=');
      if |parts| < 2 then None
      else
        SplitAtFirst(t, '=');
        Some((Trim(parts[0]), StripQuotes(Trim(JoinWith(parts[1..], '=')))))
  }

  /** What `parse` finds in each line, line by line. */
  function Parsed(lines: seq<string>, parse: string -> Option<(string, string)>): seq<Option<(string, string)>> {
    seq(|lines|, i requires 0 <= i < |lines| => parse(lines[i]))
  }

  /** The definitions of the file's lines. */
  function EntriesOf(lines: seq<string>): map<string, string> {
    Merge(Parsed(lines, LineEntry))
  }

  /** `config`: the loop over the file's lines, writing each definition to the environment and the result. */
  method Config(path: Option<string>, cwd: string, files: string -> FileState, env0: map<string, string>)
    returns (loaded: Loaded)
    ensures files(EnvFilePath(path, cwd)).Text? ==>
      var entries := EntriesOf(SplitOn(files(EnvFilePath(path, cwd)).content, '\n'));
      loaded == Loaded(Some(entries), env0 + entries)
    ensures !files(EnvFilePath(path, cwd)).Text? ==> loaded == Loaded(None, env0)
  {
    var file := files(EnvFilePath(path, cwd));
    if !file.Text? {
      return Loaded(None, env0);
    }
    var lines := SplitOn(file.content, '\n');
    var result, env := ApplyLines(lines, LineEntry, env0);
    return Loaded(Some(result), env);
  }

  /**
   * The `forEach` over the lines: each definition `parse` finds goes to the
   * environment and to the result. `Config` passes `LineEntry`.
   */
  method ApplyLines(lines: seq<string>, parse: string -> Option<(string, string)>, env0: map<string, string>)
    returns (result: map<string, string>, env: map<string, string>)
    ensures result == Merge(Parsed(lines, parse))
    ensures env == env0 + result
  {
    ghost var es := Parsed(lines, parse);
    result := map[];
    env := env0;
    for i := 0 to |lines|
      invariant result == Merge(es[..i])
      invariant env == env0 + result
    {
      MergeStep(es, i);
      var e := parse(lines[i]);
      if e.Some? {
        var (key, value) := e.value;
        UpdateUnion(env0, result, key, value);
        env := env[key := value];
        result := result[key := value];
      }
    }
    assert es[..|lines|] == es;
  }

  lemma UpdateUnion(a: map<string, string>, b: map<string, string>, k: string, v: string)
    ensures (a + b)[k := v] == a + b[k := v]
  {
  }

  /** A line defines `k` when it parses to an entry with that key. */
  predicate Defines(line: string, k: string) {
    LineEntry(line).Some? && LineEntry(line).value.0 == k
  }

  /** A key is in the result exactly when some line defines it. */
  lemma EntriesKeys(lines: seq<string>, k: string)
    ensures k in EntriesOf(lines) <==> exists i :: 0 <= i < |lines| && Defines(lines[i], k)
  {
    var es := Parsed(lines, LineEntry);
    MergeKeys(es, k);
    assert forall i :: 0 <= i < |lines| ==> es[i] == LineEntry(lines[i]);
  }

  /** The value of a key is the one given by the last line that defines it. */
  lemma LastDefinitionWins(lines: seq<string>, i: nat)
    requires i < |lines| && LineEntry(lines[i]).Some?
    requires forall j :: i < j < |lines| ==> !Defines(lines[j], LineEntry(lines[i]).value.0)
    ensures LineEntry(lines[i]).value.0 in EntriesOf(lines)
    ensures EntriesOf(lines)[LineEntry(lines[i]).value.0] == LineEntry(lines[i]).value.1
  {
    var es := Parsed(lines, LineEntry);
    assert es[i] == LineEntry(lines[i]);
    forall j | i < j < |es| ensures es[j].None? || es[j].value.0 != es[i].value.0 {
      assert es[j] == LineEntry(lines[j]);
    }
    MergeLast(es, i);
  }

  /**
   * Only the first `=` separates: in a trimmed `KEY=VALUE` line whose key has
   * no `=`, the value keeps every later `=`.
   */
  lemma ValueKeepsLaterEquals(key: string, value: string)
    requires '=' !in key && key != "" && key[0] != '#'
    ensures TrimmedEntry(key + "=" + value) == Some((Trim(key), StripQuotes(Trim(value))))
  {
    var line := key + "=" + value;
    IndexOfPrefix(key, value);
    assert line[|key|] == '=';
    assert line[..1] == [key[0]] && key[0] != '#';
    assert !StartsWith(line, "#");
    assert line[..|key|] == key;
    assert line[|key| + 1..] == value;
  }

  /** The first `=` of `key + "=" + value` is the one after the key. */
  lemma {:induction false} IndexOfPrefix(key: string, value: string)
    requires '=' !in key
    ensures IndexOf(key + "=" + value, '=') == |key|
    decreases |key|
  {
    var s := key + "=" + value;
    if key != [] {
      assert s[1..] == key[1..] + "=" + value;
      IndexOfPrefix(key[1..], value);
    }
  }

  /** A value enclosed in matching quotes loses them. */
  lemma QuotesRemoved(inner: string)
    ensures StripQuotes("\"" + inner + "\"") == inner
    ensures StripQuotes("'" + inner + "'") == inner
  {
    var d := "\"" + inner + "\"";
    assert d[..1] == "\"" && d[|d| - 1..] == "\"";
    assert d[1..|d| - 1] == inner;
    var q := "'" + inner + "'";
    assert q[..1] == "'" && q[|q| - 1..] == "'";
    assert q[1..|q| - 1] == inner;
  }
}
