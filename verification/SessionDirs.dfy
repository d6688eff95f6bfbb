// Where an agent runs and where its transcript lives: what Start computes, and that Resume computes it again.
module SessionDirs {
  import opened Options
  import opened Decimals
  import opened Text
  import opened Paths
  import opened SessionIds
  import opened SessionStore

  // RPCProcessManager's configuration, and the part of the file system it asks: which absolute paths are
  // existing directories.
  datatype Config = Config(baseArgs: seq<string>, sessionsBaseDir: string, defaultDir: string, cwd: string, dirs: iset<string>)

  // As NewRPCProcessManager leaves it, in a process whose working directory is absolute
  ghost predicate ConfigOk(cfg: Config) {
    Tight(cfg.defaultDir, IsSpace) && Rooted(cfg.cwd)
  }

  ghost function Resolve(cfg: Config, workingDir: string): Option<string> {
    var candidate := if cfg.defaultDir != "" then cfg.defaultDir else TrimSpace(workingDir);
    if candidate == "" then Some("")
    else
      var abs := Abs(cfg.cwd, candidate);
      if abs in cfg.dirs then Some(abs) else None
  }

  function MapChars(s: string): (r: string)
    ensures |r| == |s|
    ensures forall i :: 0 <= i < |s| ==> r[i] == if s[i] in {'/', '\\', ':'} then '-' else s[i]
  {
    if s == "" then "" else [if s[0] in {'/', '\\', ':'} then '-' else s[0]] + MapChars(s[1..])
  }

  // Always one ordinary path element.
  function EncodeCwdSlug(workingDir: string): (slug: string)
    ensures Name(slug) && '\\' !in slug && ':' !in slug
  {
    if workingDir == "" then "__default__"
    else
      var trimmed := TrimLeft(workingDir, (c: char) => c == '/' || c == '\\');
      "--" + MapChars(trimmed) + "--"
  }

  ghost function SessionDir(cfg: Config, user: string, sid: string, resolved: string): string {
    Abs(cfg.cwd, JoinPath([cfg.sessionsBaseDir, user, EncodeCwdSlug(resolved), sid]))
  }

  // What the row keeps of the resolved directory, and what Resume reads back.
  function Persisted(resolved: string): string {
    NullableStringValue(NullableString(resolved))
  }

  // Resume resolves what Create stored to the same directory if and only if a default is configured or the
  // stored path has no space at its end.
  lemma ResumeResolvesSame(cfg: Config, workingDir: string, resolved: string)
    requires ConfigOk(cfg) && Resolve(cfg, workingDir) == Some(resolved)
    ensures Resolve(cfg, Persisted(resolved)) == Some(resolved) <==> cfg.defaultDir != "" || Tight(resolved, IsSpace)
  {
    if cfg.defaultDir == "" && resolved != "" {
      AbsIdempotent(cfg.cwd, TrimSpace(workingDir));
      assert Rooted(resolved);
      RootedNotBlank(resolved);
      assert Persisted(resolved) == resolved;
      TrimTight(resolved, IsSpace);
      if !Tight(resolved, IsSpace) {
        var t := TrimSpace(resolved);
        CleanNoLonger(t);
        assert |Abs(cfg.cwd, t)| < |resolved|;
      }
    }
  }

  lemma RootedNotBlank(p: string)
    requires Rooted(p)
    ensures Rooted(TrimSpace(p)) && (TrimSpace(p) != p ==> |TrimSpace(p)| < |p|)
  {
    assert TrimLeft(p, IsSpace) == p;
    var right := TrimRightMargin(p, IsSpace);
    var t := TrimSpace(p);
    assert p == t + right;
    assert !AllOf(p, IsSpace) by {
      assert !IsSpace(p[0]);
    }
    assert right == "" ==> t == p;
  }

  // Whatever the slug merges, two session ids never share a directory: the id is always the last element.
  lemma DirEndsInId(cfg: Config, user: string, sid: string, resolved: string)
    requires ConfigOk(cfg) && Name(sid)
    ensures LastElement(SessionDir(cfg, user, sid, resolved)) == sid
  {
    var elems := [cfg.sessionsBaseDir, user, EncodeCwdSlug(resolved)];
    assert elems[2] != "";
    assert [cfg.sessionsBaseDir, user, EncodeCwdSlug(resolved), sid] == elems + [sid];
    NameSurvivesJoin(elems, sid);
    var front :| front != "" && JoinPath(elems + [sid]) == Clean(front + "/" + sid);
    NameSurvivesAbs(cfg.cwd, front, sid);
  }

  lemma DistinctDirs(cfg: Config, m: nat, n: nat, userM: string, userN: string, dirM: string, dirN: string)
    requires ConfigOk(cfg)
    ensures SessionDir(cfg, userM, FormatId(m), dirM) == SessionDir(cfg, userN, FormatId(n), dirN) ==> m == n
  {
    IdIsName(m);
    IdIsName(n);
    DirEndsInId(cfg, userM, FormatId(m), dirM);
    DirEndsInId(cfg, userN, FormatId(n), dirN);
    FormatInjectiveIfEqual(m, n);
  }

  lemma IdIsName(n: nat)
    ensures Name(FormatId(n))
  {
    var id := FormatId(n);
    assert id[0] == 's';
    forall i | 0 <= i < |id| ensures id[i] != '/' {
      assert i >= 2 ==> id[i] == Digits(n, IdWidth(n))[i - 2];
    }
  }

  // The slug alone does not tell directories apart.
  lemma SlugMergesDirectories()
    ensures EncodeCwdSlug("/a/b") == EncodeCwdSlug("/a-b")
  {
    var p := (c: char) => c == '/' || c == '\\';
    assert "/a/b"[1..] == "a/b" && "/a-b"[1..] == "a-b";
    assert TrimLeft("/a/b", p) == "a/b" && TrimLeft("/a-b", p) == "a-b";
    assert MapChars("a/b") == "a-b" && MapChars("a-b") == "a-b";
  }

  function Shape(workingDir: string): string {
    MapChars(TrimLeft(workingDir, (c: char) => c == '/' || c == '\\'))
  }

  // Two directories have one slug exactly when they have the same shape, and "no directory" has a slug of its own.
  lemma SlugsCollideIff(a: string, b: string)
    ensures EncodeCwdSlug(a) == EncodeCwdSlug(b) <==> (a == "" <==> b == "") && (a != "" ==> Shape(a) == Shape(b))
  {
    if a != "" && b != "" {
      var m, n := Shape(a), Shape(b);
      assert EncodeCwdSlug(a)[2..|m| + 2] == m && EncodeCwdSlug(b)[2..|n| + 2] == n;
    }
  }

  // ----- arguments -----

  // Reference: the value after the first key, or both at the end.
  function SetArg(args: seq<string>, key: string, value: string): seq<string> {
    if args == [] then [key, value]
    else if args[0] == key then [key, value] + (if |args| > 1 then args[2..] else [])
    else [args[0]] + SetArg(args[1..], key, value)
  }

  // What a reader of the list takes as the key's value
  function ArgValue(args: seq<string>, key: string): Option<string> {
    if args == [] then None
    else if args[0] == key then (if |args| > 1 then Some(args[1]) else None)
    else ArgValue(args[1..], key)
  }

  method WithArgValue(input: seq<string>, key: string, value: string) returns (args: seq<string>)
    ensures args == SetArg(input, key, value)
  {
    args := input;
    for i := 0 to |input|
      invariant args == input && key !in args[..i]
    {
      if args[i] != key {
        assert args[..i + 1] == args[..i] + [args[i]];
        continue;
      }
      SetArgAt(input, i, key, value);
      if i + 1 < |args| {
        args := args[i + 1 := value];
        return;
      }
      return args + [value];
    }
    assert input[..|input|] == input;
    SetArgAbsent(input, key, value);
    return args + [key, value];
  }

  lemma {:induction false} SetArgAbsent(args: seq<string>, key: string, value: string)
    requires key !in args
    ensures SetArg(args, key, value) == args + [key, value]
  {
    if args != [] {
      SetArgAbsent(args[1..], key, value);
      assert args == [args[0]] + args[1..];
    }
  }

  lemma {:induction false} SetArgAt(args: seq<string>, i: nat, key: string, value: string)
    requires i < |args| && args[i] == key && key !in args[..i]
    ensures SetArg(args, key, value) == if i + 1 < |args| then args[i + 1 := value] else args + [value]
  {
    if i > 0 {
      assert args[0] == args[..i][0];
      assert args[1..][..i - 1] == args[..i][1..];
      SetArgAt(args[1..], i - 1, key, value);
      assert args == [args[0]] + args[1..];
    }
  }

  lemma {:induction false} SetArgSets(args: seq<string>, key: string, value: string)
    ensures ArgValue(SetArg(args, key, value), key) == Some(value)
  {
    if args != [] && args[0] != key {
      SetArgSets(args[1..], key, value);
      assert SetArg(args, key, value)[1..] == SetArg(args[1..], key, value);
    }
  }

  lemma {:induction false} LastWriteWins(args: seq<string>, key: string, first: string, second: string)
    ensures SetArg(SetArg(args, key, first), key, second) == SetArg(args, key, second)
  {
    if args == [] {
      assert [key, first][2..] == [];
    } else if args[0] != key {
      LastWriteWins(args[1..], key, first, second);
      assert SetArg(args, key, first)[1..] == SetArg(args[1..], key, first);
    } else {
      assert SetArg(args, key, first)[2..] == if |args| > 1 then args[2..] else [];
    }
  }

  function EnsureFlag(args: seq<string>, flag: string): (r: seq<string>)
    ensures args <= r && flag in r && |r| <= |args| + 1 && (flag in args ==> r == args)
  {
    if flag in args then args else args + [flag]
  }

  lemma {:induction false} AppendKeepsValue(args: seq<string>, key: string, flag: string)
    requires ArgValue(args, key).Some?
    ensures ArgValue(args + [flag], key) == ArgValue(args, key)
  {
    if args[0] != key {
      assert (args + [flag])[1..] == args[1..] + [flag];
      AppendKeepsValue(args[1..], key, flag);
    }
  }

  // The command line of a start: transcript says whether the session directory holds one already.
  ghost function StartArgs(cfg: Config, user: string, sid: string, resolved: string, transcript: bool): seq<string> {
    var args := SetArg(cfg.baseArgs, "--session-dir", SessionDir(cfg, user, sid, resolved));
    if transcript then EnsureFlag(args, "--continue") else args
  }

  // Create and Resume of one session pass the same directory, and a transcript adds the continue flag.
  lemma ResumeReplaysCreate(cfg: Config, user: string, sid: string, workingDir: string, resolved: string, transcript: bool)
    requires ConfigOk(cfg) && Resolve(cfg, workingDir) == Some(resolved)
    requires cfg.defaultDir != "" || Tight(resolved, IsSpace)
    ensures var again := Resolve(cfg, Persisted(resolved));
      && again.Some?
      && ArgValue(StartArgs(cfg, user, sid, resolved, transcript), "--session-dir") == Some(SessionDir(cfg, user, sid, resolved))
      && ArgValue(StartArgs(cfg, user, sid, again.value, true), "--session-dir") == Some(SessionDir(cfg, user, sid, resolved))
      && "--continue" in StartArgs(cfg, user, sid, again.value, true)
  {
    ResumeResolvesSame(cfg, workingDir, resolved);
    var dir := SessionDir(cfg, user, sid, resolved);
    var args := SetArg(cfg.baseArgs, "--session-dir", dir);
    SetArgSets(cfg.baseArgs, "--session-dir", dir);
    AppendKeepsValue(args, "--session-dir", "--continue");
  }

  // ----- a session that Resume takes elsewhere -----

  lemma CleanTrailingDot()
    ensures Clean("/a /.") == "/a " && Clean("/a") == "/a"
  {
    SplitAt("", '/', "a /.");
    SplitAt("a ", '/', ".");
    SplitAt("", '/', "a");
    SplitNone("a ", '/');
    SplitNone("a", '/');
    SplitNone(".", '/');
    assert "/a /." == "" + "/" + "a /." && "a /." == "a " + "/" + "." && "/a" == "" + "/" + "a";
    assert Split("/a /.", '/') == [""] + (["a "] + ["."]) && Split("/a", '/') == [""] + ["a"];
    PushName("a ", ["."]);
    PushName("a", []);
    assert PushAll(true, ["a "], ["."]) == PushAll(true, ["a "], ["."][1..]) == ["a "];
  }

  lemma PushName(name: string, rest: seq<string>)
    requires Name(name)
    ensures PushAll(true, [], [""] + ([name] + rest)) == PushAll(true, [name], rest)
  {
    assert ([""] + ([name] + rest))[1..] == [name] + rest && ([name] + rest)[1..] == rest;
    assert PushElement(true, [], name) == [name];
  }

  lemma ResumedElsewhere(cfg: Config)
    requires ConfigOk(cfg) && cfg.defaultDir == "" && "/a " in cfg.dirs && "/a" in cfg.dirs
    ensures Resolve(cfg, "/a /.") == Some("/a ") && Resolve(cfg, Persisted("/a ")) == Some("/a")
  {
    CleanTrailingDot();
    TrimTight("/a /.", IsSpace);
    TrimUnique("", "/a", " ", IsSpace);
    assert "" + "/a" + " " == "/a ";
  }

  // ----- the whole command line -----

  function WithFlag(args: seq<string>, wanted: bool): seq<string> {
    if wanted && "--continue" !in args then args + ["--continue"] else args
  }

  // The configured arguments all reach the process, in their places: the session directory goes behind them with its
  // key, or takes the place of the value after the key's first occurrence; the flag comes last, and only for a
  // transcript.
  lemma StartArgsExactly(cfg: Config, user: string, sid: string, resolved: string, transcript: bool)
    ensures var dir := SessionDir(cfg, user, sid, resolved); var args := StartArgs(cfg, user, sid, resolved, transcript);
      && ("--session-dir" !in cfg.baseArgs ==> args == WithFlag(cfg.baseArgs + ["--session-dir", dir], transcript))
      && (forall i :: 0 <= i < |cfg.baseArgs| && cfg.baseArgs[i] == "--session-dir" && "--session-dir" !in cfg.baseArgs[..i] ==>
            args == WithFlag(if i + 1 < |cfg.baseArgs| then cfg.baseArgs[i + 1 := dir] else cfg.baseArgs + [dir], transcript))
  {
    var dir := SessionDir(cfg, user, sid, resolved);
    if "--session-dir" !in cfg.baseArgs {
      SetArgAbsent(cfg.baseArgs, "--session-dir", dir);
    }
    forall i | 0 <= i < |cfg.baseArgs| && cfg.baseArgs[i] == "--session-dir" && "--session-dir" !in cfg.baseArgs[..i]
      ensures SetArg(cfg.baseArgs, "--session-dir", dir)
           == if i + 1 < |cfg.baseArgs| then cfg.baseArgs[i + 1 := dir] else cfg.baseArgs + [dir]
    {
      SetArgAt(cfg.baseArgs, i, "--session-dir", dir);
    }
  }

  lemma DirIsRooted(cfg: Config, user: string, sid: string, resolved: string)
    requires ConfigOk(cfg)
    ensures Rooted(SessionDir(cfg, user, sid, resolved))
  {
    AbsIdempotent(cfg.cwd, JoinPath([cfg.sessionsBaseDir, user, EncodeCwdSlug(resolved), sid]));
  }

  // With arguments that do not name a session directory themselves they come first, unchanged, and without a
  // transcript the process is told to continue if and only if they say so.
  lemma BaseArgsReachProcess(cfg: Config, user: string, sid: string, resolved: string, transcript: bool)
    requires ConfigOk(cfg) && "--session-dir" !in cfg.baseArgs
    ensures cfg.baseArgs <= StartArgs(cfg, user, sid, resolved, transcript)
    ensures "--continue" in StartArgs(cfg, user, sid, resolved, transcript) <==> transcript || "--continue" in cfg.baseArgs
  {
    StartArgsExactly(cfg, user, sid, resolved, transcript);
    DirIsRooted(cfg, user, sid, resolved);
  }

  // With ones that do, everything but the value after the first key keeps its place, and the same holds of the flag if
  // it stood anywhere else than as that value.
  lemma OtherArgsReachProcess(cfg: Config, user: string, sid: string, resolved: string, transcript: bool, i: nat)
    requires ConfigOk(cfg) && i < |cfg.baseArgs| && cfg.baseArgs[i] == "--session-dir" && "--session-dir" !in cfg.baseArgs[..i]
    ensures var args := StartArgs(cfg, user, sid, resolved, transcript);
      && (forall k :: 0 <= k < |cfg.baseArgs| && k != i + 1 ==> k < |args| && args[k] == cfg.baseArgs[k])
      && i + 1 < |args| && args[i + 1] == SessionDir(cfg, user, sid, resolved)
      && ("--continue" in args <==> (transcript || StandsElsewhere("--continue", cfg.baseArgs, i + 1)))
  {
    var dir := SessionDir(cfg, user, sid, resolved);
    StartArgsExactly(cfg, user, sid, resolved, transcript);
    DirIsRooted(cfg, user, sid, resolved);
    PutAtKeeps(cfg.baseArgs, i + 1, dir, "--continue");
  }

  predicate StandsElsewhere(arg: string, args: seq<string>, k: nat) {
    exists j :: 0 <= j < |args| && j != k && args[j] == arg
  }

  lemma PutAtKeeps(args: seq<string>, k: nat, value: string, arg: string)
    requires k <= |args| && value != arg
    ensures var changed := if k < |args| then args[k := value] else args + [value];
      && |args| <= |changed| && k < |changed| && changed[k] == value
      && (forall j :: 0 <= j < |args| && j != k ==> changed[j] == args[j])
      && (arg in changed <==> StandsElsewhere(arg, args, k))
  {
    var changed := if k < |args| then args[k := value] else args + [value];
    if arg in changed {
      var j :| 0 <= j < |changed| && changed[j] == arg;
      assert j != k && args[j] == arg;
    }
    if j :| 0 <= j < |args| && j != k && args[j] == arg {
      assert changed[j] == arg;
    }
  }

  // ----- resolution and slug, in plain words -----

  // A configured default decides alone; else the request does, its margins aside; what is chosen must be an existing
  // directory and comes out absolute, and nothing chosen is no directory.
  lemma ResolveMeans(cfg: Config, workingDir: string)
    requires ConfigOk(cfg)
    ensures cfg.defaultDir != "" ==> forall other :: Resolve(cfg, other) == Resolve(cfg, workingDir)
    ensures Resolve(cfg, workingDir) == Some("") <==> cfg.defaultDir == "" && AllOf(workingDir, IsSpace)
    ensures Resolve(cfg, workingDir).Some? && Resolve(cfg, workingDir).value != "" ==>
      Rooted(Resolve(cfg, workingDir).value) && Resolve(cfg, workingDir).value in cfg.dirs
    ensures cfg.defaultDir != "" && Abs(cfg.cwd, cfg.defaultDir) in cfg.dirs ==>
      Resolve(cfg, workingDir) == Some(Abs(cfg.cwd, cfg.defaultDir))
    ensures cfg.defaultDir == "" && workingDir != "" && Tight(workingDir, IsSpace) && Abs(cfg.cwd, workingDir) in cfg.dirs ==>
      forall left, right :: AllOf(left, IsSpace) && AllOf(right, IsSpace) ==>
        Resolve(cfg, left + workingDir + right) == Some(Abs(cfg.cwd, workingDir))
  {
    TrimEmpty(workingDir, IsSpace);
    AbsIdempotent(cfg.cwd, if cfg.defaultDir != "" then cfg.defaultDir else TrimSpace(workingDir));
    forall left, right | AllOf(left, IsSpace) && AllOf(right, IsSpace) && Tight(workingDir, IsSpace)
      ensures TrimSpace(left + workingDir + right) == workingDir
    {
      TrimUnique(left, workingDir, right, IsSpace);
    }
  }

  // Pi's own convention: two dashes on either side, dashes for separators and colons, leading separators dropped.
  lemma SlugText(a: string, c: string)
    requires '/' !in a && '\\' !in a && ':' !in a && a != "" && '/' !in c && '\\' !in c && ':' !in c
    ensures EncodeCwdSlug("") == "__default__"
    ensures EncodeCwdSlug("/" + (a + "/" + c)) == "--" + (a + "-" + c) + "--"
    ensures EncodeCwdSlug(a + ":" + c) == "--" + (a + "-" + c) + "--"
  {
    var p := (ch: char) => ch == '/' || ch == '\\';
    assert ("/" + (a + "/" + c))[1..] == a + "/" + c;
    assert a[0] in a && (a + "/" + c)[0] == a[0] && (a + ":" + c)[0] == a[0];
    assert TrimLeft("/" + (a + "/" + c), p) == a + "/" + c && TrimLeft(a + ":" + c, p) == a + ":" + c;
    MapOf(a, '/', c);
    MapOf(a, ':', c);
  }

  lemma MapOf(a: string, sep: char, c: string)
    requires '/' !in a && '\\' !in a && ':' !in a && '/' !in c && '\\' !in c && ':' !in c && sep in {'/', '\\', ':'}
    ensures MapChars(a + [sep] + c) == a + "-" + c
  {
  }
}
