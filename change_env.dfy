/**
 * The `.env` editor: loading `KEY=value` lines into a dict, writing a dict back
 * as lines, the "blank answer keeps the current value" prompt rule, and the
 * five-key record the interactive editor saves.
 *
 * The file is given as the lines Python's iteration yields (None when the file
 * does not exist); saving returns the strings passed to `write`, in order; the
 * user's answers at the terminal are given as strings.
 */
module ChangeEnv {
  import opened Wrappers
  import opened Text
  import opened OrderedDict
  import opened TextFile

  type Env = Dict<string, string>

  /** What a stripped line contributes: `key, value = line.split('=', 1)` unless it is blank, has no `=`, or is a comment. */
  function SplitEntry(line: string): (r: Option<(string, string)>)
    ensures r.Some? <==> (line != [] && '=' in line && line[0] != '#')
    ensures r.Some? ==> line == r.value.0 + "=" + r.value.1 && '=' !in r.value.0
  {
    if line != [] && '=' in line && !StartsWith(line, "#") then
      var i := IndexOf(line, '=');
      assert line == line[..i] + "=" + line[i + 1..];
      Some((line[..i], line[i + 1..]))
    else None
  }

  /** What one line of the file contributes to the dict, if anything. */
  function ParseLine(raw: string): Option<(string, string)> {
    SplitEntry(Strip(raw))
  }

  function LineEntries(lines: seq<string>): (es: seq<Option<(string, string)>>)
    ensures |es| == |lines| && forall i :: 0 <= i < |lines| ==> es[i] == ParseLine(lines[i])
  {
    seq(|lines|, i requires 0 <= i < |lines| => ParseLine(lines[i]))
  }

  /** The dict loaded from a file with these lines: each contributing line assigns its key, in order. */
  function EnvOfLines(lines: seq<string>): (env: Env)
    ensures DistinctKeys(env)
  {
    PutAllDistinct([], LineEntries(lines));
    PutAll([], LineEntries(lines))
  }

  /** The dict loaded from the file, or `{}` when there is no file. */
  function EnvOf(file: Option<seq<string>>): (env: Env)
    ensures file.None? ==> env == []
    ensures DistinctKeys(env)
  {
    match file
    case None => []
    case Some(lines) => EnvOfLines(lines)
  }

  /** `load_env_values`. */
  method LoadEnvValues(file: Option<seq<string>>) returns (env: Env)
    ensures env == EnvOf(file)
  {
    env := [];
    if file.Some? {
      var lines := file.value;
      for i := 0 to |lines|
        invariant env == PutAll([], LineEntries(lines)[..i])
      {
        assert LineEntries(lines)[..i + 1][..i] == LineEntries(lines)[..i];
        match ParseLine(lines[i]) {
          case Some(entry) =>
            env := Put(env, entry.0, entry.1);
          case None =>
        }
      }
      assert LineEntries(lines)[..|lines|] == LineEntries(lines);
    }
  }

  /** A key ends up in the loaded dict iff some line defines it. */
  lemma LoadedKeys(lines: seq<string>, k: string)
    ensures Get(EnvOfLines(lines), k).Some? <==>
            exists i :: 0 <= i < |lines| && Assigns(ParseLine(lines[i]), k)
  {
    var es := LineEntries(lines);
    PutAllHas([], es, k);
    if Get(EnvOfLines(lines), k).Some? {
      var i :| 0 <= i < |es| && Assigns(es[i], k);
      assert Assigns(ParseLine(lines[i]), k);
    }
  }

  /** When a key is defined on several lines, the last of them gives its value. */
  lemma LaterLineWins(lines: seq<string>, i: nat, k: string, v: string)
    requires i < |lines| && ParseLine(lines[i]) == Some((k, v))
    requires forall j :: i < j < |lines| ==> !Assigns(ParseLine(lines[j]), k)
    ensures Get(EnvOfLines(lines), k) == Some(v)
  {
    PutAllLastWins([], LineEntries(lines), k, i);
  }

  /** One line of the file as `save_env_values` writes it. */
  function EntryLine(k: string, v: string): string {
    k + "=" + v + "\n"
  }

  /** The strings `save_env_values` writes for a dict. */
  function Render(env: Env): (lines: seq<string>)
    ensures |lines| == |env|
    ensures forall i :: 0 <= i < |env| ==> lines[i] == EntryLine(env[i].0, env[i].1)
  {
    if env == [] then []
    else Render(env[..|env| - 1]) + [EntryLine(env[|env| - 1].0, env[|env| - 1].1)]
  }

  /** `save_env_values`: one `key=value` line per entry, in dict order. */
  method SaveEnvValues(env: Env) returns (written: seq<string>)
    ensures |written| == |env|
    ensures forall i :: 0 <= i < |env| ==> written[i] == EntryLine(env[i].0, env[i].1)
  {
    written := [];
    for i := 0 to |env|
      invariant |written| == i
      invariant forall j :: 0 <= j < i ==> written[j] == EntryLine(env[j].0, env[j].1)
    {
      written := written + [EntryLine(env[i].0, env[i].1)];
    }
  }

  /** A key that reads back as itself: no `=`, and not starting with `#` or white space. */
  predicate LineSafeKey(k: string) {
    '=' !in k && (k == [] || (k[0] != '#' && !IsSpace(k[0])))
  }

  /** A value that reads back as itself: not ending in white space. */
  predicate LineSafeValue(v: string) {
    v == [] || !IsSpace(v[|v| - 1])
  }

  predicate NoNewline(s: string) {
    '\n' !in s && '\r' !in s
  }

  /** A dict that survives a save and a load unchanged. */
  predicate Storable(env: Env) {
    && DistinctKeys(env)
    && forall i :: 0 <= i < |env| ==>
         LineSafeKey(env[i].0) && LineSafeValue(env[i].1) && NoNewline(env[i].0) && NoNewline(env[i].1)
  }

  lemma ParseEntryLine(k: string, v: string)
    requires LineSafeKey(k) && LineSafeValue(v)
    ensures ParseLine(EntryLine(k, v)) == Some((k, v))
  {
    var s := k + "=" + v;
    assert s[..|k|] == k && s[|k|] == '=' && s[|k| + 1..] == v;
    assert !IsSpace(s[0]) && !IsSpace(s[|s| - 1]);
    StripNewlineTerminated(s);
    assert EntryLine(k, v) == s + "\n";
    assert !StartsWith(s, "#") by {
      assert s[0] != '#';
    }
    assert IndexOf(s, '=') == |k|;
  }

  /** Parsing the lines written for a storable dict gives the dict back. */
  lemma LoadRendered(env: Env)
    requires Storable(env)
    ensures EnvOfLines(Render(env)) == env
  {
    var lines := Render(env);
    forall i | 0 <= i < |env|
      ensures LineEntries(lines)[i] == Wrapped(env)[i]
    {
      ParseEntryLine(env[i].0, env[i].1);
    }
    assert LineEntries(lines) == Wrapped(env);
    Rebuild(env);
  }

  /** Saving a storable dict to `.env` and loading the file back gives the same dict, in the same order. */
  lemma SaveThenLoad(env: Env)
    requires Storable(env)
    ensures EnvOf(Some(ReadLines(Concat(Render(env))))) == env
  {
    var lines := Render(env);
    forall i | 0 <= i < |lines|
      ensures '\r' !in lines[i] && IsLine(lines[i])
    {
      var l := lines[i];
      assert l == env[i].0 + "=" + env[i].1 + "\n";
      assert l[..|l| - 1] == env[i].0 + "=" + env[i].1;
    }
    ConcatExcludes(lines, '\r');
    SplitConcat(lines);
    LoadRendered(env);
  }

  /** Whether `x` is truthy for an optional string (`None` and `""` are not). */
  predicate Present(x: Option<string>) {
    x.Some? && x.value != []
  }

  /** The preview of the current value shown in the prompt: its first 50 characters, then "..." iff it is longer. */
  function CurrentPreview(v: string): (p: string)
    ensures |v| <= 50 ==> p == v
    ensures |v| > 50 ==> |p| == 53 && p[..50] == v[..50] && p[50..] == "..."
  {
    if |v| > 50 then v[..50] + "..." else v
  }

  /** `get_user_input`: the stripped answer, except that a blank answer keeps a non-empty current value. */
  function GetUserInput(answer: string, current: Option<string>): (r: string)
    ensures Present(current) && Strip(answer) == [] ==> r == current.value
    ensures !Present(current) || Strip(answer) != [] ==> r == Strip(answer)
  {
    if Present(current) then
      var input := Strip(answer);
      if input != [] then input else current.value
    else Strip(answer)
  }

  /** The keys `main` saves, in the order it assigns them. */
  const ConfigKeys: seq<string> := ["PUBLICATION_URL", "USER_ID", "SID", "SUBSTACK_SID", "SUBSTACK_LLI"]

  lemma ConfigKeysDistinct()
    ensures forall i, j :: 0 <= i < j < |ConfigKeys| ==> ConfigKeys[i] != ConfigKeys[j]
  {
    assert ConfigKeys[0][0] == 'P' && ConfigKeys[1][0] == 'U' && ConfigKeys[2][1] == 'I';
    assert |ConfigKeys[2]| == 3 && |ConfigKeys[3]| == 12 && |ConfigKeys[4]| == 12;
    assert ConfigKeys[3][9] == 'S' && ConfigKeys[4][9] == 'L';
  }

  /** The answer recorded for the `i`-th key. */
  function Answer(current: Env, answers: seq<string>, i: nat): string
    requires |answers| == |ConfigKeys| && i < |ConfigKeys|
  {
    GetUserInput(answers[i], Get(current, ConfigKeys[i]))
  }

  /** The record `main` saves: exactly ConfigKeys, in order, each with the answer given for it. */
  function Configured(current: Env, answers: seq<string>): (env: Env)
    requires |answers| == |ConfigKeys|
    ensures Keys(env) == ConfigKeys && DistinctKeys(env)
    ensures forall i :: 0 <= i < |ConfigKeys| ==> Get(env, ConfigKeys[i]) == Some(Answer(current, answers, i))
  {
    var env := seq(|ConfigKeys|, i requires 0 <= i < |ConfigKeys| => (ConfigKeys[i], Answer(current, answers, i)));
    assert Keys(env) == ConfigKeys;
    ConfigKeysDistinct();
    forall i | 0 <= i < |ConfigKeys|
      ensures Get(env, ConfigKeys[i]) == Some(env[i].1)
    {
      GetDistinct(env, ConfigKeys[i], i);
    }
    env
  }

  /** Assigning the next key of ConfigKeys to the record built so far extends it by one entry. */
  lemma ConfiguredStep(current: Env, answers: seq<string>, n: nat, before: Env)
    requires |answers| == |ConfigKeys| && n < |ConfigKeys|
    requires before == Configured(current, answers)[..n]
    ensures Put(before, ConfigKeys[n], Answer(current, answers, n)) == Configured(current, answers)[..n + 1]
  {
    var env := Configured(current, answers);
    ConfigKeysDistinct();
    assert Keys(before) == ConfigKeys[..n];
    assert ConfigKeys[n] !in Keys(before);
    PutNew(before, ConfigKeys[n], Answer(current, answers, n));
    assert env[..n + 1] == before + [(ConfigKeys[n], Answer(current, answers, n))];
  }

  /** One `env['<KEY>'] = get_user_input(...)` of `main`, the `n`-th: it extends the record by the `n`-th key. */
  method AskFor(current: Env, answers: seq<string>, n: nat, env: Env) returns (extended: Env)
    requires |answers| == |ConfigKeys| && n < |ConfigKeys|
    requires env == Configured(current, answers)[..n]
    ensures extended == Configured(current, answers)[..n + 1]
  {
    ConfiguredStep(current, answers, n, env);
    extended := Put(env, ConfigKeys[n], GetUserInput(answers[n], Get(current, ConfigKeys[n])));
  }

  /** The five assignments of `main`, from the loaded values and the user's answers. */
  method AssembleRecord(current: Env, answers: seq<string>) returns (env: Env)
    requires |answers| == |ConfigKeys|
    ensures env == Configured(current, answers)
  {
    env := [];
    env := AskFor(current, answers, 0, env);
    env := AskFor(current, answers, 1, env);
    env := AskFor(current, answers, 2, env);
    env := AskFor(current, answers, 3, env);
    env := AskFor(current, answers, 4, env);
    assert env == Configured(current, answers)[..5];
  }

  /** `main`: load the file, ask for each of the five values, and save the record. */
  method Configure(file: Option<seq<string>>, answers: seq<string>) returns (written: seq<string>)
    requires |answers| == |ConfigKeys|
    ensures written == Render(Configured(EnvOf(file), answers))
  {
    var current := LoadEnvValues(file);
    var env := AssembleRecord(current, answers);
    written := SaveEnvValues(env);
    assert written == Render(env);
  }

  /** Any key other than the five is dropped from the saved file. */
  lemma ConfigureDropsOtherKeys(current: Env, answers: seq<string>, k: string)
    requires |answers| == |ConfigKeys| && k !in ConfigKeys
    ensures Get(Configured(current, answers), k) == None
  {
  }

  /** Pressing Enter at every prompt saves the current values of the five keys that have one. */
  lemma BlankAnswersKeep(current: Env, answers: seq<string>, i: nat)
    requires |answers| == |ConfigKeys| && i < |ConfigKeys|
    requires forall j :: 0 <= j < |answers| ==> Strip(answers[j]) == []
    requires Present(Get(current, ConfigKeys[i]))
    ensures Get(Configured(current, answers), ConfigKeys[i]) == Get(current, ConfigKeys[i])
  {
  }

  /** Answering every prompt with a blank, starting from a saved record, gives the same record. */
  lemma BlanksKeepRecord(current: Env, answers: seq<string>, blanks: seq<string>)
    requires |answers| == |ConfigKeys| && |blanks| == |ConfigKeys|
    requires forall j :: 0 <= j < |blanks| ==> Strip(blanks[j]) == []
    ensures Configured(Configured(current, answers), blanks) == Configured(current, answers)
  {
    var saved := Configured(current, answers);
    var again := Configured(saved, blanks);
    forall i | 0 <= i < |ConfigKeys|
      ensures again[i] == saved[i]
    {
      var v := Answer(current, answers, i);
      assert saved[i] == (ConfigKeys[i], v);
      assert again[i] == (ConfigKeys[i], GetUserInput(blanks[i], Some(v)));
    }
    assert |again| == |saved|;
  }

  /**
   * Running the editor again on the file it wrote, pressing Enter at every
   * prompt, writes the same file again.
   */
  lemma RerunWithBlanksIsIdempotent(file: Option<seq<string>>, answers: seq<string>, blanks: seq<string>)
    requires |answers| == |ConfigKeys| && |blanks| == |ConfigKeys|
    requires forall j :: 0 <= j < |blanks| ==> Strip(blanks[j]) == []
    requires Storable(Configured(EnvOf(file), answers))
    ensures var saved := Configured(EnvOf(file), answers);
            Configured(EnvOf(Some(ReadLines(Concat(Render(saved))))), blanks) == saved
  {
    SaveThenLoad(Configured(EnvOf(file), answers));
    BlanksKeepRecord(EnvOf(file), answers, blanks);
  }
}
