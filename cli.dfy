/** The pure part of `main` in src/main.rs: splitting the `org/repo`
    argument, choosing where the token comes from, and building the tarball
    URL. Environment variables are a map from name to value; whether stdout
    is a terminal is a flag; the result of the device flow is given as the
    value `get_github_token` would return. */
module Cli {
  import opened Errors
  import opened DeviceFlow
  import DeviceFlowProperties

  const INVALID_REPO_FORMAT: string := "Invalid repo format"
  const GH_TOKEN: string := "GH_TOKEN"
  const GITHUB_AUTH: string := "GITHUB_AUTH"
  const REPOS_URL_PREFIX: string := "https://api.github.com/repos/"
  const TARBALL_URL_SUFFIX: string := "/tarball"

  /** The exit status when no token is available and stdout is not a terminal. */
  const NO_TOKEN_EXIT_STATUS: int := 1

  /** The command line: the positional `repo` and the optional `--token`. */
  datatype Args = Args(repo: string, token: Option<string>)

  // ---------------------------------------------------------------------------
  // Splitting on a separator

  /** The pieces of `s` between occurrences of `sep`, as Rust's `str::split`
      yields them: one more piece than there are separators, empty pieces
      included. */
  function Split(s: string, sep: char): (parts: seq<string>)
    ensures |parts| >= 1
    ensures forall i :: 0 <= i < |parts| ==> sep !in parts[i]
    decreases |s|
  {
    if s == [] then [[]]
    else
      var rest := Split(s[1..], sep);
      if s[0] == sep then [[]] + rest
      else [[s[0]] + rest[0]] + rest[1..]
  }

  /** The pieces put back together with `sep` between them. */
  function Join(parts: seq<string>, sep: char): string
    requires |parts| >= 1
    decreases |parts|
  {
    if |parts| == 1 then parts[0] else parts[0] + [sep] + Join(parts[1..], sep)
  }

  /** The number of occurrences of `c` in `s`. */
  function Occurrences(s: string, c: char): nat
    decreases |s|
  {
    if s == [] then 0 else (if s[0] == c then 1 else 0) + Occurrences(s[1..], c)
  }

  /** Splitting loses nothing: joining the pieces gives the string back. */
  lemma {:induction false} JoinSplit(s: string, sep: char)
    ensures Join(Split(s, sep), sep) == s
    decreases |s|
  {
    if s != [] {
      JoinSplit(s[1..], sep);
      var rest := Split(s[1..], sep);
      if s[0] != sep {
        if |rest| == 1 {
          assert Split(s, sep) == [[s[0]] + rest[0]];
        } else {
          assert Split(s, sep)[1..] == rest[1..];
          assert Join(rest, sep) == rest[0] + [sep] + Join(rest[1..], sep);
        }
      }
    }
  }

  /** There is one piece more than there are separators. */
  lemma {:induction false} SplitCount(s: string, sep: char)
    ensures |Split(s, sep)| == Occurrences(s, sep) + 1
    decreases |s|
  {
    if s != [] {
      SplitCount(s[1..], sep);
    }
  }

  /** A separator-free word followed by the separator is split off whole. */
  lemma {:induction false} SplitAfterWord(w: string, sep: char, r: string)
    requires sep !in w
    ensures Split(w + [sep] + r, sep) == [w] + Split(r, sep)
    decreases |w|
  {
    if w == [] {
      assert w + [sep] + r == [sep] + r;
      assert ([sep] + r)[1..] == r;
    } else {
      SplitAfterWord(w[1..], sep, r);
      assert (w + [sep] + r)[1..] == w[1..] + [sep] + r;
      assert [w[0]] + w[1..] == w;
    }
  }

  /** A separator-free word is a single piece. */
  lemma {:induction false} SplitWord(w: string, sep: char)
    requires sep !in w
    ensures Split(w, sep) == [w]
    decreases |w|
  {
    if w != [] {
      SplitWord(w[1..], sep);
      assert [w[0]] + w[1..] == w;
    }
  }

  /** Separator-free pieces are recovered by splitting their join. */
  lemma {:induction false} SplitJoin(parts: seq<string>, sep: char)
    requires |parts| >= 1
    requires forall i :: 0 <= i < |parts| ==> sep !in parts[i]
    ensures Split(Join(parts, sep), sep) == parts
    decreases |parts|
  {
    if |parts| == 1 {
      SplitWord(parts[0], sep);
    } else {
      SplitJoin(parts[1..], sep);
      SplitAfterWord(parts[0], sep, Join(parts[1..], sep));
      assert [parts[0]] + parts[1..] == parts;
    }
  }

  // ---------------------------------------------------------------------------
  // The repo argument and the download URL

  /** The `org/repo` argument: accepted only when it splits on '/' into
      exactly two pieces, which are the owner and the repository. */
  function ParseRepo(arg: string): (r: Result<(string, string)>)
    ensures r.Err? ==> r.error == Other(INVALID_REPO_FORMAT)
    ensures r.Ok? ==> '/' !in r.value.0 && '/' !in r.value.1
  {
    var parts := Split(arg, '/');
    if |parts| != 2 then Err(Other(INVALID_REPO_FORMAT)) else Ok((parts[0], parts[1]))
  }

  /** The URL the tarball is downloaded from. */
  function TarballUrl(owner: string, repo: string): (u: string)
    ensures |u| == |REPOS_URL_PREFIX| + |owner| + 1 + |repo| + |TARBALL_URL_SUFFIX|
    ensures u[..|REPOS_URL_PREFIX|] == REPOS_URL_PREFIX
    ensures u[|REPOS_URL_PREFIX|..|u| - |TARBALL_URL_SUFFIX|] == owner + "/" + repo
    ensures u[|u| - |TARBALL_URL_SUFFIX|..] == TARBALL_URL_SUFFIX
  {
    REPOS_URL_PREFIX + owner + "/" + repo + TARBALL_URL_SUFFIX
  }

  /** The argument is accepted exactly when it contains one '/', and then
      the owner is what precedes it and the repository what follows. */
  lemma ParseRepoExact(arg: string)
    ensures ParseRepo(arg).Ok? <==> Occurrences(arg, '/') == 1
    ensures ParseRepo(arg).Err? ==> ParseRepo(arg).error == Other(INVALID_REPO_FORMAT)
    ensures ParseRepo(arg).Ok? ==>
      var (owner, repo) := ParseRepo(arg).value;
      arg == owner + "/" + repo && '/' !in owner && '/' !in repo
  {
    SplitCount(arg, '/');
    JoinSplit(arg, '/');
    var parts := Split(arg, '/');
    if |parts| == 2 {
      assert Join(parts, '/') == parts[0] + "/" + parts[1];
    }
  }

  /** Conversely, any owner and repository without '/' are what their
      `owner/repo` argument parses to. */
  lemma ParseRepoOf(owner: string, repo: string)
    requires '/' !in owner && '/' !in repo
    ensures ParseRepo(owner + "/" + repo) == Ok((owner, repo))
  {
    SplitJoin([owner, repo], '/');
    assert Join([owner, repo], '/') == owner + "/" + repo;
  }

  /** The download URL holds the argument verbatim between the API prefix
      and the `/tarball` suffix. */
  lemma TarballUrlEmbedsArgument(arg: string)
    requires ParseRepo(arg).Ok?
    ensures TarballUrl(ParseRepo(arg).value.0, ParseRepo(arg).value.1) == REPOS_URL_PREFIX + arg + TARBALL_URL_SUFFIX
  {
    ParseRepoExact(arg);
  }

  /** Different accepted arguments give different URLs. */
  lemma TarballUrlInjective(arg1: string, arg2: string)
    requires ParseRepo(arg1).Ok? && ParseRepo(arg2).Ok?
    requires TarballUrl(ParseRepo(arg1).value.0, ParseRepo(arg1).value.1) ==
             TarballUrl(ParseRepo(arg2).value.0, ParseRepo(arg2).value.1)
    ensures arg1 == arg2
  {
    TarballUrlEmbedsArgument(arg1);
    TarballUrlEmbedsArgument(arg2);
    var u1 := REPOS_URL_PREFIX + arg1 + TARBALL_URL_SUFFIX;
    var u2 := REPOS_URL_PREFIX + arg2 + TARBALL_URL_SUFFIX;
    assert arg1 == u1[|REPOS_URL_PREFIX|..|u1| - |TARBALL_URL_SUFFIX|];
    assert arg2 == u2[|REPOS_URL_PREFIX|..|u2| - |TARBALL_URL_SUFFIX|];
  }

  // ---------------------------------------------------------------------------
  // Choosing the token

  /** `GH_TOKEN`, or else `GITHUB_AUTH`, if either is set. */
  function EnvToken(env: map<string, string>): (r: Option<string>)
    ensures r.Some? <==> GH_TOKEN in env || GITHUB_AUTH in env
    ensures r.Some? ==>
      (GH_TOKEN in env && r.value == env[GH_TOKEN]) ||
      (GH_TOKEN !in env && GITHUB_AUTH in env && r.value == env[GITHUB_AUTH])
  {
    if GH_TOKEN in env then Some(env[GH_TOKEN])
    else if GITHUB_AUTH in env then Some(env[GITHUB_AUTH])
    else None
  }

  /** What the token step of `main` yields: a token, an error from the device
      flow, or the process exiting with a status. */
  datatype TokenChoice = UseToken(token: string) | Fail(error: Error) | ExitWith(status: int)

  /** The flag, else the environment, else the device flow when stdout is a
      terminal, else exit with status 1. */
  function ChooseToken(flag: Option<string>, env: map<string, string>, isTerminal: bool, deviceFlow: Result<string>)
    : (c: TokenChoice)
    ensures c.ExitWith? <==> flag.None? && EnvToken(env).None? && !isTerminal
    ensures c.ExitWith? ==> c.status == NO_TOKEN_EXIT_STATUS
    ensures c.Fail? ==> RunsDeviceFlow(flag, env, isTerminal) && deviceFlow == Err(c.error)
    ensures c.UseToken? && RunsDeviceFlow(flag, env, isTerminal) ==> deviceFlow == Ok(c.token)
  {
    match flag
    case Some(token) => UseToken(token)
    case None =>
      match EnvToken(env)
      case Some(token) => UseToken(token)
      case None =>
        if !isTerminal then ExitWith(NO_TOKEN_EXIT_STATUS)
        else match deviceFlow
          case Ok(token) => UseToken(token)
          case Err(e) => Fail(e)
  }

  /** Whether `main` consults the device flow at all. */
  predicate RunsDeviceFlow(flag: Option<string>, env: map<string, string>, isTerminal: bool) {
    flag.None? && GH_TOKEN !in env && GITHUB_AUTH !in env && isTerminal
  }

  /** A `--token` value is used whatever the environment holds. */
  lemma FlagWins(token: string, env: map<string, string>, isTerminal: bool, deviceFlow: Result<string>)
    ensures ChooseToken(Some(token), env, isTerminal, deviceFlow) == UseToken(token)
  {
  }

  /** Without the flag, `GH_TOKEN` is used in preference to `GITHUB_AUTH`,
      which is used when `GH_TOKEN` is unset. */
  lemma EnvironmentPrecedence(env: map<string, string>, isTerminal: bool, deviceFlow: Result<string>)
    ensures GH_TOKEN in env ==> ChooseToken(None, env, isTerminal, deviceFlow) == UseToken(env[GH_TOKEN])
    ensures GH_TOKEN !in env && GITHUB_AUTH in env ==>
      ChooseToken(None, env, isTerminal, deviceFlow) == UseToken(env[GITHUB_AUTH])
  {
  }

  /** With no flag and no environment token: on a terminal the device flow's
      result decides; otherwise the process exits with status 1. */
  lemma NoTokenSource(env: map<string, string>, isTerminal: bool, deviceFlow: Result<string>)
    requires GH_TOKEN !in env && GITHUB_AUTH !in env
    ensures !isTerminal ==> ChooseToken(None, env, isTerminal, deviceFlow) == ExitWith(1)
    ensures isTerminal && deviceFlow.Ok? ==> ChooseToken(None, env, isTerminal, deviceFlow) == UseToken(deviceFlow.value)
    ensures isTerminal && deviceFlow.Err? ==> ChooseToken(None, env, isTerminal, deviceFlow) == Fail(deviceFlow.error)
  {
  }

  /** The device flow's result matters only when `main` runs it: otherwise any
      two results give the same choice. */
  lemma DeviceFlowOnlyWhenNeeded(flag: Option<string>, env: map<string, string>, isTerminal: bool, d1: Result<string>, d2: Result<string>)
    requires !RunsDeviceFlow(flag, env, isTerminal)
    ensures ChooseToken(flag, env, isTerminal, d1) == ChooseToken(flag, env, isTerminal, d2)
  {
  }

  // ---------------------------------------------------------------------------
  // `main` up to the download

  /** Where `main` gets to before any network or file access: the download it
      would start, the error it returns, or the status it exits with. */
  datatype MainOutcome = Download(url: string, token: string) | Failed(error: Error) | Exit(status: int)

  /** `main` from argument parsing to the download request. The repo
      argument is checked before any token is looked for. */
  function MainFlow(args: Args, env: map<string, string>, isTerminal: bool, deviceFlow: Result<string>)
    : (m: MainOutcome)
    ensures m.Download? ==> ParseRepo(args.repo).Ok?
  {
    match ParseRepo(args.repo)
    case Err(e) => Failed(e)
    case Ok((owner, repo)) =>
      match ChooseToken(args.token, env, isTerminal, deviceFlow)
      case UseToken(token) => Download(TarballUrl(owner, repo), token)
      case Fail(e) => Failed(e)
      case ExitWith(status) => Exit(status)
  }

  /** An accepted argument with a token from any source starts the download. */
  lemma AcceptedArgumentDownloads(args: Args, env: map<string, string>, isTerminal: bool, deviceFlow: Result<string>)
    requires ParseRepo(args.repo).Ok?
    requires args.token.Some? || EnvToken(env).Some? || (isTerminal && deviceFlow.Ok?)
    ensures MainFlow(args, env, isTerminal, deviceFlow).Download?
  {
  }

  /** An accepted argument with no flag and no environment token: off a
      terminal the process exits with status 1; on a terminal a failed device
      flow is returned as `main`'s error. */
  lemma NoTokenExits(args: Args, env: map<string, string>, isTerminal: bool, deviceFlow: Result<string>)
    requires ParseRepo(args.repo).Ok?
    requires args.token.None? && EnvToken(env).None?
    ensures !isTerminal ==> MainFlow(args, env, isTerminal, deviceFlow) == Exit(NO_TOKEN_EXIT_STATUS)
    ensures isTerminal && deviceFlow.Err? ==> MainFlow(args, env, isTerminal, deviceFlow) == Failed(deviceFlow.error)
  {
  }

  /** A malformed repo argument fails before any token source is consulted. */
  lemma InvalidRepoFailsFirst(args: Args, env: map<string, string>, isTerminal: bool, deviceFlow: Result<string>)
    requires Occurrences(args.repo, '/') != 1
    ensures MainFlow(args, env, isTerminal, deviceFlow) == Failed(Other(INVALID_REPO_FORMAT))
  {
    ParseRepoExact(args.repo);
  }

  /** Every download `main` starts is of `owner/repo` exactly as given, with a
      token from the first available source. */
  lemma DownloadIsOfTheArgument(args: Args, env: map<string, string>, isTerminal: bool, deviceFlow: Result<string>)
    requires MainFlow(args, env, isTerminal, deviceFlow).Download?
    ensures MainFlow(args, env, isTerminal, deviceFlow).url == REPOS_URL_PREFIX + args.repo + TARBALL_URL_SUFFIX
    ensures MainFlow(args, env, isTerminal, deviceFlow).token ==
      if args.token.Some? then args.token.value
      else if EnvToken(env).Some? then EnvToken(env).value
      else deviceFlow.value
  {
    TarballUrlEmbedsArgument(args.repo);
  }

  /** A token `main` takes from the device flow was either already cached in
      the keychain, with no poll issued, or, on a cache miss, carried as
      `access_token` by a 200 reply to the last poll of the run. */
  lemma DeviceFlowTokenIsCachedOrGranted(args: Args, env: map<string, string>, isTerminal: bool,
                                         keyring: Keyring, reply: DeviceCodeReply, stdinRead: bool,
                                         script: seq<Exchange>)
    requires RunsDeviceFlow(args.token, env, isTerminal)
    requires GetGithubToken(keyring, reply, stdinRead, script).outcome.Finished?
    ensures var t := GetGithubToken(keyring, reply, stdinRead, script);
      var m := MainFlow(args, env, isTerminal, t.outcome.result);
      var n := |t.pollTimes|;
      m.Download? ==>
        (CachedToken(keyring) == Ok(Some(m.token)) && n == 0) ||
        (CachedToken(keyring) == Ok(None) && 1 <= n <= |script| &&
         script[n - 1].reply.PollAnswered? && script[n - 1].reply.status == STATUS_OK &&
         script[n - 1].reply.body.TokenPollResponse? &&
         script[n - 1].reply.body.accessToken == Some(m.token))
  {
    var t := GetGithubToken(keyring, reply, stdinRead, script);
    if CachedToken(keyring) == Ok(None) && t.outcome.result.Ok? {
      assert reply.CodeAnswered? && reply.status == STATUS_OK && reply.body.Some? && stdinRead;
      var code := reply.body.value;
      DeviceFlowProperties.TokenOnlyFromGrant(code.interval, code.expiresIn, script, 0, t.outcome.result.value);
    }
  }
}
