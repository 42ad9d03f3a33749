/** The GitHub OAuth device-flow client of src/github_device_flow.rs.

    HTTP exchanges are not performed: each request is replaced by the reply it
    received, given as a value. The wall clock of `poll_for_token` is a counter
    of whole seconds that starts at 0 when polling starts and advances by the
    time each request took (given with its reply) and by every sleep. */
module DeviceFlow {
  import opened Errors

  /** HTTP 200, the only status either request accepts. */
  const STATUS_OK: nat := 200

  /** Seconds added to the poll interval for the one sleep after a `slow_down`. */
  const SLOW_DOWN_PENALTY: nat := 5

  /** The `error` codes of the token endpoint that the poll loop recognises. */
  const AUTHORIZATION_PENDING: string := "authorization_pending"
  const SLOW_DOWN: string := "slow_down"
  const EXPIRED_TOKEN: string := "expired_token"

  /** The messages the device flow formats for its own errors. */
  const DEVICE_CODE_STATUS_PREFIX: string := "Failed to get device code. Status: "
  const TIMED_OUT: string := "Token request timed out"
  const DEVICE_TOKEN_EXPIRED: string := "Device token expired, please re-run to try again"
  const PROVIDER_ERROR_PREFIX: string := "Failed to get token: "
  const NO_TOKEN: string := "Failed to get token"
  const POLL_FAILED: string := "Failed to poll for token"

  /** The keychain entry a token is cached under. */
  const SERVICE: string := "test-github-device-flow"
  const USERNAME: string := "github_token"

  // ---------------------------------------------------------------------------
  // Wire values

  /** The parsed body of a successful device-code request. */
  datatype DeviceCodeResponse = DeviceCodeResponse(
    deviceCode: string,
    userCode: string,
    verificationUri: string,
    expiresIn: nat,
    interval: nat)

  /** What the device-code request came back with: the request could not be
      sent, or a status and a body that did or did not decode. */
  datatype DeviceCodeReply =
    | CodeSendFailed
    | CodeAnswered(status: nat, body: Option<DeviceCodeResponse>)

  /** The body of a token poll reply: not JSON of the expected shape, or the
      two optional fields the program reads. */
  datatype TokenPollBody =
    | NotJson
    | TokenPollResponse(accessToken: Option<string>, error: Option<string>)

  /** What one token poll came back with. */
  datatype PollReply =
    | PollSendFailed
    | PollAnswered(status: nat, body: TokenPollBody)

  /** One canned poll: the seconds the request took and its reply. */
  datatype Exchange = Exchange(latency: nat, reply: PollReply)

  // ---------------------------------------------------------------------------
  // Classifying one poll reply

  /** How the loop treats one poll reply. */
  datatype PollOutcome =
    | Granted(token: string)
    | Pending
    | SlowDown
    | CodeExpired
    | Rejected(code: string)
    | NoTokenNoError
    | BadStatus
    | Undecodable
    | Unsent

  /** The branch of the poll loop a reply takes: the status first, then the
      body, then `access_token` before `error`. */
  function Classify(reply: PollReply): (o: PollOutcome)
    ensures o.BadStatus? <==> reply.PollAnswered? && reply.status != STATUS_OK
    ensures o.Granted? <==>
      reply.PollAnswered? && reply.status == STATUS_OK &&
      reply.body.TokenPollResponse? && reply.body.accessToken.Some?
    ensures o.Granted? ==> o.token == reply.body.accessToken.value
    ensures o.Rejected? ==>
      reply.PollAnswered? && reply.body.TokenPollResponse? && reply.body.error == Some(o.code) &&
      o.code != AUTHORIZATION_PENDING && o.code != SLOW_DOWN && o.code != EXPIRED_TOKEN
    ensures o.Pending? <==> reply == PollAnswered(STATUS_OK, TokenPollResponse(None, Some(AUTHORIZATION_PENDING)))
    ensures o.SlowDown? <==> reply == PollAnswered(STATUS_OK, TokenPollResponse(None, Some(SLOW_DOWN)))
    ensures o.CodeExpired? <==> reply == PollAnswered(STATUS_OK, TokenPollResponse(None, Some(EXPIRED_TOKEN)))
    ensures o.NoTokenNoError? <==> reply == PollAnswered(STATUS_OK, TokenPollResponse(None, None))
    ensures o.Undecodable? <==> reply == PollAnswered(STATUS_OK, NotJson)
    ensures o.Unsent? <==> reply.PollSendFailed?
  {
    match reply
    case PollSendFailed => Unsent
    case PollAnswered(status, body) =>
      if status != STATUS_OK then BadStatus
      else match body
        case NotJson => Undecodable
        case TokenPollResponse(accessToken, error) =>
          if accessToken.Some? then Granted(accessToken.value)
          else match error
            case None => NoTokenNoError
            case Some(code) =>
              if code == AUTHORIZATION_PENDING then Pending
              else if code == SLOW_DOWN then SlowDown
              else if code == EXPIRED_TOKEN then CodeExpired
              else Rejected(code)
  }

  /** The outcomes after which the loop sleeps and polls again. */
  predicate Waits(o: PollOutcome) {
    o.Pending? || o.SlowDown?
  }

  /** The sleep that follows a waiting outcome: the base interval, plus the
      penalty after a `slow_down`. */
  function Delay(o: PollOutcome, interval: nat): (d: nat)
    requires Waits(o)
    ensures interval <= d <= interval + SLOW_DOWN_PENALTY
    ensures d == interval + SLOW_DOWN_PENALTY <==> o.SlowDown?
    ensures !o.SlowDown? ==> d == interval
  {
    if o.SlowDown? then interval + SLOW_DOWN_PENALTY else interval
  }

  /** What the loop returns on an outcome that ends it. */
  function Verdict(o: PollOutcome): (r: Result<string>)
    requires !Waits(o)
    ensures r.Ok? <==> o.Granted?
    ensures r.Ok? ==> r.value == o.token
    ensures r == Err(Http) <==> o.Undecodable? || o.Unsent?
  {
    match o
    case Granted(token) => Ok(token)
    case CodeExpired => Err(Other(DEVICE_TOKEN_EXPIRED))
    case Rejected(code) => Err(Other(PROVIDER_ERROR_PREFIX + code))
    case NoTokenNoError => Err(Other(NO_TOKEN))
    case BadStatus => Err(Other(POLL_FAILED))
    case Undecodable => Err(Http)
    case Unsent => Err(Http)
  }

  // ---------------------------------------------------------------------------
  // The polling loop

  /** How a run of the loop over a canned script ends: with the function's
      result, or because the script had no reply left for a poll the loop was
      about to issue. */
  datatype RunEnd = Finished(result: Result<string>) | ScriptExhausted

  /** A run: how it ended, the clock reading at each poll issued, and each
      sleep taken, in order. */
  datatype Trace = Trace(outcome: RunEnd, pollTimes: seq<nat>, sleeps: seq<nat>)

  /** The loop of `poll_for_token`, started with `now` seconds already elapsed,
      as a function of the fixed interval, the expiry and the replies still to
      come. Every reply is consumed by exactly one poll. */
  function Run(interval: nat, expiresIn: nat, script: seq<Exchange>, now: nat): (t: Trace)
    ensures |t.pollTimes| <= |script|
    ensures |t.sleeps| <= |t.pollTimes| <= |t.sleeps| + 1
    ensures t.outcome.ScriptExhausted? ==> |t.pollTimes| == |script|
    decreases |script|
  {
    if now > expiresIn then Trace(Finished(Err(Other(TIMED_OUT))), [], [])
    else if script == [] then Trace(ScriptExhausted, [], [])
    else
      var o := Classify(script[0].reply);
      if Waits(o) then
        var d := Delay(o, interval);
        var rest := Run(interval, expiresIn, script[1..], now + script[0].latency + d);
        Trace(rest.outcome, [now] + rest.pollTimes, [d] + rest.sleeps)
      else
        Trace(Finished(Verdict(o)), [now], [])
  }

  /** A run whose first polls and sleeps are already recorded. */
  ghost function Glue(pollTimes: seq<nat>, sleeps: seq<nat>, rest: Trace): Trace {
    Trace(rest.outcome, pollTimes + rest.pollTimes, sleeps + rest.sleeps)
  }

  /** One unfolding of `Run` on a poll that is issued. */
  lemma RunStep(interval: nat, expiresIn: nat, script: seq<Exchange>, now: nat)
    requires now <= expiresIn && script != []
    ensures var o := Classify(script[0].reply);
      Run(interval, expiresIn, script, now) ==
        if Waits(o) then
          Glue([now], [Delay(o, interval)],
            Run(interval, expiresIn, script[1..], now + script[0].latency + Delay(o, interval)))
        else Trace(Finished(Verdict(o)), [now], [])
  {
  }

  /** The loop invariant survives a poll whose reply asks to wait. */
  lemma WaitStep(interval: nat, expiresIn: nat, script: seq<Exchange>, i: nat, now: nat,
                 pollTimes: seq<nat>, sleeps: seq<nat>, whole: Trace)
    requires i < |script| && now <= expiresIn && Waits(Classify(script[i].reply))
    requires whole == Glue(pollTimes, sleeps, Run(interval, expiresIn, script[i..], now))
    ensures var d := Delay(Classify(script[i].reply), interval);
      whole == Glue(pollTimes + [now], sleeps + [d],
                    Run(interval, expiresIn, script[i + 1..], now + script[i].latency + d))
  {
    RunStep(interval, expiresIn, script[i..], now);
    assert script[i..][0] == script[i] && script[i..][1..] == script[i + 1..];
    var d := Delay(Classify(script[i].reply), interval);
    var rest := Run(interval, expiresIn, script[i + 1..], now + script[i].latency + d);
    assert pollTimes + ([now] + rest.pollTimes) == (pollTimes + [now]) + rest.pollTimes;
    assert sleeps + ([d] + rest.sleeps) == (sleeps + [d]) + rest.sleeps;
  }

  /** A poll whose reply ends the loop completes the run. */
  lemma FinalStep(interval: nat, expiresIn: nat, script: seq<Exchange>, i: nat, now: nat,
                  pollTimes: seq<nat>, sleeps: seq<nat>, whole: Trace)
    requires i < |script| && now <= expiresIn && !Waits(Classify(script[i].reply))
    requires whole == Glue(pollTimes, sleeps, Run(interval, expiresIn, script[i..], now))
    ensures whole == Trace(Finished(Verdict(Classify(script[i].reply))), pollTimes + [now], sleeps)
  {
    RunStep(interval, expiresIn, script[i..], now);
    assert script[i..][0] == script[i];
    assert sleeps + [] == sleeps;
  }

  /** `poll_for_token` run against a canned script. The interval and the
      expiry are read once from the device-code response; the clock starts at
      0. Returns how the loop ended, the clock reading at each poll and each
      sleep taken. */
  method PollForToken(response: DeviceCodeResponse, script: seq<Exchange>)
    returns (outcome: RunEnd, pollTimes: seq<nat>, sleeps: seq<nat>)
    ensures Trace(outcome, pollTimes, sleeps) == Run(response.interval, response.expiresIn, script, 0)
  {
    var pollInterval := response.interval;
    var expiresIn := response.expiresIn;
    var elapsed: nat := 0;
    var i := 0;
    pollTimes, sleeps := [], [];
    ghost var whole := Run(pollInterval, expiresIn, script, 0);
    assert script[0..] == script;
    while true
      invariant i <= |script| && i == |pollTimes|
      invariant whole == Glue(pollTimes, sleeps, Run(pollInterval, expiresIn, script[i..], elapsed))
      decreases |script| - i
    {
      if elapsed > expiresIn {
        outcome := Finished(Err(Other(TIMED_OUT)));
        assert pollTimes + [] == pollTimes && sleeps + [] == sleeps;
        return;
      }
      if i == |script| {
        outcome := ScriptExhausted;
        assert pollTimes + [] == pollTimes && sleeps + [] == sleeps;
        return;
      }
      var exchange := script[i];
      var o := Classify(exchange.reply);
      if o.Pending? || o.SlowDown? {
        var pause: nat := if o.SlowDown? then pollInterval + SLOW_DOWN_PENALTY else pollInterval;
        assert pause == Delay(o, pollInterval);
        WaitStep(pollInterval, expiresIn, script, i, elapsed, pollTimes, sleeps, whole);
        pollTimes := pollTimes + [elapsed];
        sleeps := sleeps + [pause];
        elapsed := elapsed + exchange.latency + pause;
        i := i + 1;
      } else {
        FinalStep(pollInterval, expiresIn, script, i, elapsed, pollTimes, sleeps, whole);
        pollTimes := pollTimes + [elapsed];
        outcome := Finished(Verdict(o));
        return;
      }
    }
  }

  // ---------------------------------------------------------------------------
  // Requesting a device code

  /** The run a device flow produces when it fails before polling. */
  function FailedBeforePolling(error: Error): Trace {
    Trace(Finished(Err(error)), [], [])
  }

  /** `create_github_token`: request a device code, accept it only on HTTP 200
      with a decodable body, wait for the user to press Enter (`stdinRead` is
      whether reading standard input succeeded), then poll. Opening the browser
      may fail without effect. */
  function CreateGithubToken(reply: DeviceCodeReply, stdinRead: bool, script: seq<Exchange>): (t: Trace)
    ensures |t.pollTimes| > 0 ==>
      reply.CodeAnswered? && reply.status == STATUS_OK && reply.body.Some? && stdinRead
    ensures reply.CodeSendFailed? ==> t == FailedBeforePolling(Http)
    ensures reply.CodeAnswered? && reply.status != STATUS_OK ==>
      t == FailedBeforePolling(Other(DEVICE_CODE_STATUS_PREFIX + Decimal(reply.status)))
    ensures reply.CodeAnswered? && reply.status == STATUS_OK && reply.body.None? ==>
      t == FailedBeforePolling(Http)
    ensures reply.CodeAnswered? && reply.status == STATUS_OK && reply.body.Some? && !stdinRead ==>
      t == FailedBeforePolling(Io)
  {
    match reply
    case CodeSendFailed => FailedBeforePolling(Http)
    case CodeAnswered(status, body) =>
      if status != STATUS_OK then FailedBeforePolling(Other(DEVICE_CODE_STATUS_PREFIX + Decimal(status)))
      else if body.None? then FailedBeforePolling(Http)
      else if !stdinRead then FailedBeforePolling(Io)
      else Run(body.value.interval, body.value.expiresIn, script, 0)
  }

  // ---------------------------------------------------------------------------
  // The token cache

  /** The OS secret store, keyed by (service, user): reachable with its
      entries, or failing every access. */
  datatype Keyring = Unreachable | Reachable(entries: map<(string, string), string>)

  /** Reading the program's keychain entry: an error when the store fails,
      otherwise the cached token if there is one. */
  function CachedToken(keyring: Keyring): (r: Result<Option<string>>)
    ensures r.Ok? <==> keyring.Reachable?
    ensures r.Ok? ==> (r.value.Some? <==> (SERVICE, USERNAME) in keyring.entries)
    ensures r.Ok? && r.value.Some? ==> r.value.value == keyring.entries[(SERVICE, USERNAME)]
  {
    match keyring
    case Unreachable => Err(Keyring)
    case Reachable(entries) =>
      if (SERVICE, USERNAME) in entries then Ok(Some(entries[(SERVICE, USERNAME)])) else Ok(None)
  }

  /** `save_token`: overwrite the program's keychain entry with `token`. */
  function SaveToken(keyring: Keyring, token: string): (r: Result<Keyring>)
    ensures r.Ok? <==> keyring.Reachable?
    ensures r.Ok? ==> r.value.Reachable? && r.value.entries.Keys == keyring.entries.Keys + {(SERVICE, USERNAME)}
    ensures r.Ok? ==> r.value.entries[(SERVICE, USERNAME)] == token
    ensures r.Ok? ==> forall key :: key in keyring.entries && key != (SERVICE, USERNAME) ==>
      r.value.entries[key] == keyring.entries[key]
  {
    match keyring
    case Unreachable => Err(Keyring)
    case Reachable(entries) => Ok(Reachable(entries[(SERVICE, USERNAME) := token]))
  }

  /** How a call of `get_github_token` as written ends: with a value it
      returns, or by reaching the end of the body with nothing to return. */
  datatype AsWritten = Returned(run: Trace) | FellThrough(flow: Trace)

  /** `get_github_token` as its text reads (src/github_device_flow.rs:168-178):
      a cached token is returned; on a miss the device flow runs and its error
      is propagated, but on success the token is discarded and the body ends in
      `()` where a `Result<String, _>` is required. Rust rejects that body at
      compile time, so `FellThrough` describes the text, not a program that
      could run. */
  function GetGithubTokenAsWritten(keyring: Keyring, reply: DeviceCodeReply, stdinRead: bool, script: seq<Exchange>)
    : (w: AsWritten)
    ensures w.FellThrough? ==> w.flow.outcome.Finished? && w.flow.outcome.result.Ok?
  {
    match CachedToken(keyring)
    case Err(e) => Returned(FailedBeforePolling(e))
    case Ok(Some(token)) => Returned(Trace(Finished(Ok(token)), [], []))
    case Ok(None) =>
      var flow := CreateGithubToken(reply, stdinRead, script);
      if flow.outcome.Finished? && flow.outcome.result.Ok? then FellThrough(flow) else Returned(flow)
  }

  /** `get_github_token` as evidently intended: a cached token short-circuits
      the flow; on a miss the device flow's result is the function's result.
      Nothing is saved. */
  function GetGithubToken(keyring: Keyring, reply: DeviceCodeReply, stdinRead: bool, script: seq<Exchange>)
    : (t: Trace)
    ensures |t.pollTimes| > 0 ==> CachedToken(keyring) == Ok(None)
  {
    match CachedToken(keyring)
    case Err(e) => FailedBeforePolling(e)
    case Ok(Some(token)) => Trace(Finished(Ok(token)), [], [])
    case Ok(None) => CreateGithubToken(reply, stdinRead, script)
  }
}
