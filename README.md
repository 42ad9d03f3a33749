# GitHub device-flow client, modelled in Dafny

This project models the command-line client `test-github-device-flow`. The
client gets a GitHub access token with the OAuth 2.0 Device Authorization
Grant (RFC 8628; token polling in section 3.4, poll error codes in section
3.5). It first looks for a cached token in the OS keychain, and never stores
one there. It then builds the URL of the
repository tarball it is about to download.

- `errors.dfy` (module `Errors`): the error values of src/errors.rs,
  `Option`/`Result`, and the decimal rendering of an HTTP status in the
  device-code error message.
- `device_flow.dfy` (module `DeviceFlow`): src/github_device_flow.rs.
  - The classification of one token-poll reply (`Classify`, `Waits`, `Delay`,
    `Verdict`).
  - The polling loop as a reference function `Run` over a script of canned
    replies.
  - The imperative `PollForToken`, with a `while` loop, a fake clock that
    counts whole seconds, and a log of polls and sleeps. Its postcondition is
    that it produces exactly `Run`'s trace.
  - The device-code request `CreateGithubToken`.
  - The keychain lookup and `save_token` over an abstract map keyed by
    (service, user).
  - `get_github_token`, both as written and as evidently intended (see
    Findings).
- `device_flow_properties.dfy` (module `DeviceFlowProperties`): the lemmas.
  They cover precedence within one reply, the sleeps, the clock reading at
  each poll, where a run stops, the deadline, a bound on the number of polls,
  scenarios, and the cache.
- `cli.dfy` (module `Cli`): the pure part of `main` in src/main.rs. That is
  Rust's `split('/')` and the `org/repo` check, the order in which token
  sources are tried, and the tarball URL.

Behaviour of the code worth knowing, which the model follows:

- After `slow_down` the code sleeps `interval + 5` seconds for that one
  iteration only (src/github_device_flow.rs:148-149). The interval is read
  once (src/github_device_flow.rs:112) and never changes. Section 3.5 of
  RFC 8628 asks a client to increase the interval by 5 seconds for that and
  all subsequent requests; this code does not. `SlowDownIsNotCumulative`
  shows two `slow_down` replies from an interval of 5 giving sleeps of 10
  and 10.
- The deadline test is `elapsed > expires_in`
  (src/github_device_flow.rs:117). At exactly `expires_in` the code still
  polls (`PollsAtExactExpiry`).
- Only `authorization_pending`, `slow_down` and `expired_token` are matched
  (src/github_device_flow.rs:144-158). Any other code, `access_denied`
  included, ends the loop with "Failed to get token: <code>".
- A non-200 poll status gives the fixed message "Failed to poll for token"
  (src/github_device_flow.rs:162-163), which does not include the status.
- The keychain entry is always (`test-github-device-flow`, `github_token`)
  (src/github_device_flow.rs:169-170 and 181-182). `save_token`
  (src/github_device_flow.rs:180-188) is never called by
  `get_github_token` or `main`, so a token obtained by the device flow is
  not cached.

The clock model: polling starts at second 0. Each canned poll says how many
whole seconds its request took, and every sleep advances the clock by its
length. The loop compares the clock with `expires_in` before each poll. A run
over a finite script can also end with `ScriptExhausted`. That means the
loop was about to poll and the script had no reply left. It comes from the finite canned script, not
from the program.

## Model

| member | source | states |
|---|---|---|
| `Errors.Decimal` | src/github_device_flow.rs:89 | the status in the device-code error message is a non-empty string of decimal digits, one digit exactly for statuses below 10, with no leading zero ("0" for zero) |
| `Errors.DecimalRoundTrip` | src/github_device_flow.rs:89 | reading the digits of that message back gives the status: the rendering loses nothing |
| `DeviceFlow.Classify` | src/github_device_flow.rs:135-163 | the status is checked first: a non-200 reply is a bad status whatever its body; a token is granted exactly when a 200 body carries `access_token`, and it is that value; a 200 body with no `access_token` is pending, slow-down or expired exactly when its `error` is `authorization_pending`, `slow_down` or `expired_token`; a rejection carries the body's `error` code, which is none of those three; an unsent poll, an undecodable 200 body and a 200 with neither field each have their own outcome |
| `DeviceFlow.Delay` | src/github_device_flow.rs:146-149 | a sleep is exactly the interval, except after `slow_down`, when it is exactly the interval plus 5 seconds |
| `DeviceFlow.Verdict` | src/github_device_flow.rs:139-163 | the loop returns a token exactly on a granted reply, and that reply's token; it fails with the HTTP client's error exactly on the unsent and undecodable outcomes, which `Classify` ties to an unsent poll and an undecodable 200 body |
| `DeviceFlow.Run` | src/github_device_flow.rs:116-165 | a run issues at most one poll per reply; it has as many sleeps as polls, or one poll more; if the script runs out, every reply was polled |
| `DeviceFlow.PollForToken` | src/github_device_flow.rs:108-166 | the loop reads interval and expiry once, starts the clock at 0, and returns exactly the outcome, poll times and sleeps of `Run` |
| `DeviceFlow.CreateGithubToken` | src/github_device_flow.rs:77-106 | no poll is issued unless the device-code reply was a 200 with a decodable body and stdin was read; otherwise it fails before polling: an unsent request or an undecodable body with the HTTP client's error, a non-200 reply with "Failed to get device code. Status: <status>", a failed stdin read with an I/O error |
| `DeviceFlow.CachedToken` | src/github_device_flow.rs:168-175 | the lookup fails exactly when the keychain is unreachable; otherwise it yields a token exactly when the (service, user) entry exists, and that entry's value |
| `DeviceFlow.SaveToken` | src/github_device_flow.rs:180-188 | saving fails exactly when the keychain is unreachable; otherwise the entry for (service, user) is added or overwritten and now holds the token, and every other entry is unchanged |
| `DeviceFlow.GetGithubTokenAsWritten` | src/github_device_flow.rs:168-178 | as written, the function falls through without a value only after a device flow that succeeded |
| `DeviceFlow.GetGithubToken` | src/github_device_flow.rs:168-178 | any poll issued comes from a device flow run on a cache miss |
| `DeviceFlowProperties.TokenTakesPrecedence` | src/github_device_flow.rs:139-141 | a 200 reply with `access_token` returns that token whatever `error` holds |
| `DeviceFlowProperties.NonOkStatusIsFatal` | src/github_device_flow.rs:135-164 | a non-200 poll status ends the loop with "Failed to poll for token" and is never retried, whatever the body |
| `DeviceFlowProperties.UnknownCodeIsReported` | src/github_device_flow.rs:155-156 | an unrecognised `error` code ends the loop with "Failed to get token: " followed by exactly that code |
| `DeviceFlowProperties.OtherTerminalReplies` | src/github_device_flow.rs:133-159 | a 200 with neither field ends the loop with "Failed to get token"; an unsent poll or an undecodable 200 body ends it with the HTTP client's error |
| `DeviceFlowProperties.WaitsExactly` | src/github_device_flow.rs:135-163 | `Waits` of a reply's classification holds, so the loop sleeps and polls again, exactly on a 200 without `access_token` whose `error` is `authorization_pending` or `slow_down`; every other reply ends it |
| `DeviceFlowProperties.SleepsFollowReplies` | src/github_device_flow.rs:112-150 | the k-th sleep follows the k-th reply, which asked to wait, and is the delay of that reply's classification: earlier replies never lengthen it |
| `DeviceFlowProperties.SleepPerCode` | src/github_device_flow.rs:144-149 | for every interval and script, each sleep follows an `authorization_pending` 200 reply and is exactly the interval, or a `slow_down` 200 reply and is exactly the interval plus 5 seconds |
| `DeviceFlowProperties.PollClock` | src/github_device_flow.rs:114-150 | the first poll is at the start time; each later poll is at the previous one plus that request's duration plus its sleep; no poll is after the expiry |
| `DeviceFlowProperties.OutcomeExplained` | src/github_device_flow.rs:116-165 | a run with as many sleeps as polls ended by timeout or script exhaustion; a run with one poll more ended with the verdict of its last reply, which was terminal |
| `DeviceFlowProperties.TokenOnlyFromGrant` | src/github_device_flow.rs:139-141 | a token is returned only if the last reply polled was a 200 carrying that `access_token` |
| `DeviceFlowProperties.StopsAtFirstTerminal` | src/github_device_flow.rs:151-163 | after the first reply that ends the loop (`expired_token`, another code, no fields, bad status) no further poll is issued, and the result is that reply's verdict unless the deadline passed first |
| `DeviceFlowProperties.TimesOutWithoutPolling` | src/github_device_flow.rs:117-118 | once the elapsed time exceeds `expires_in`, the loop returns "Token request timed out" without polling |
| `DeviceFlowProperties.PollsAtExactExpiry` | src/github_device_flow.rs:117-118 | at an elapsed time equal to `expires_in` the loop still polls |
| `DeviceFlowProperties.PollsSpacedByInterval` | src/github_device_flow.rs:144-149 | the k-th poll is at least k intervals after the start |
| `DeviceFlowProperties.PollCountBounded` | src/github_device_flow.rs:116-149 | the number of polls minus one, times the interval, fits between the start and the expiry |
| `DeviceFlowProperties.ExhaustionNeedsTime` | src/github_device_flow.rs:116-149 | a script can run out only if its length times the interval fits before the expiry |
| `DeviceFlowProperties.AlwaysFinishes` | src/github_device_flow.rs:116-165 | with an interval of at least 1 s, a script longer than expiry/interval always reaches a result: the loop ends by itself whatever the server answers |
| `DeviceFlowProperties.PendingThenGranted` | src/github_device_flow.rs:139-146 | two `authorization_pending` replies then a token give the token after exactly two 5-second sleeps, polls at 0, 5 and 10 s |
| `DeviceFlowProperties.SlowDownIsNotCumulative` | src/github_device_flow.rs:148-149 | two `slow_down` replies from an interval of 5 give sleeps of 10 and 10, not 10 and 15 |
| `DeviceFlowProperties.SlowDownThenExpired` | src/github_device_flow.rs:148-152 | `slow_down` then `expired_token` fails with the re-run message after two polls; later replies are never polled |
| `DeviceFlowProperties.ShortExpiryTimesOut` | src/github_device_flow.rs:117-118 | with `expires_in` 1 and interval 5, one pending reply is followed by a timeout and no second poll |
| `DeviceFlowProperties.DeviceCodeStatusGates` | src/github_device_flow.rs:80-105 | a refused or unsent device-code request fails before polling; a 200 with a decoded body and a read of stdin hands the body's interval and expiry to the poll loop |
| `DeviceFlowProperties.CacheHitShortCircuits` | src/github_device_flow.rs:173-175 | a cached token is returned with no poll and no sleep, whatever the device-code endpoint would answer |
| `DeviceFlowProperties.CacheMissRunsDeviceFlow` | src/github_device_flow.rs:177 | on a cache miss the result is the device flow's result |
| `DeviceFlowProperties.UnreachableStoreFails` | src/github_device_flow.rs:171-173 | an unreachable keychain fails the lookup with a keychain error and the device flow does not run |
| `DeviceFlowProperties.SaveThenGet` | src/github_device_flow.rs:180-188 | after `save_token`, the next lookup returns the saved token without running the device flow |
| `DeviceFlowProperties.LastSaveWins` | src/github_device_flow.rs:180-188 | of two saves, the later token is the one cached |
| `DeviceFlowProperties.AsWrittenReturnsOnlyCachedTokens` | src/github_device_flow.rs:168-178 | as written, any token the function returns was already in the keychain |
| `DeviceFlowProperties.AsWrittenDropsGrantedToken` | src/github_device_flow.rs:177 | with an empty keychain and a flow granted at the first poll, the as-written function has no token to return, while the corrected one returns it |
| `Cli.Split` | src/main.rs:33 | splitting on '/' yields at least one piece and no piece contains '/' |
| `Cli.JoinSplit` | src/main.rs:33 | joining the pieces with '/' gives back the argument |
| `Cli.SplitCount` | src/main.rs:33 | the number of pieces is the number of '/' plus one |
| `Cli.SplitJoin` | src/main.rs:33 | pieces without '/' are recovered by splitting their join |
| `Cli.ParseRepo` | src/main.rs:33-38 | a rejected argument fails with "Invalid repo format"; an accepted one gives an owner and a repo without '/' (`ParseRepoExact` and `ParseRepoOf` give both directions) |
| `Cli.ParseRepoExact` | src/main.rs:33-38 | the argument is accepted exactly when it contains one '/'; then the owner is the text before it and the repo the text after it; otherwise the error is "Invalid repo format" |
| `Cli.ParseRepoOf` | src/main.rs:33-38 | any owner and repo without '/' are exactly what `owner/repo` parses to |
| `Cli.TarballUrl` | src/main.rs:61 | the URL is `https://api.github.com/repos/`, then the owner, '/', the repo, then `/tarball`, with nothing else |
| `Cli.TarballUrlEmbedsArgument` | src/main.rs:61 | the URL is `https://api.github.com/repos/` followed by the accepted argument followed by `/tarball` |
| `Cli.TarballUrlInjective` | src/main.rs:61 | different accepted arguments give different URLs |
| `Cli.EnvToken` | src/main.rs:44 | an environment token exists exactly when `GH_TOKEN` or `GITHUB_AUTH` is set; it is `GH_TOKEN`'s value when that is set, and `GITHUB_AUTH`'s otherwise |
| `Cli.ChooseToken` | src/main.rs:42-56 | the process exits, with status 1, exactly when there is no flag, no environment token and no terminal; a device-flow error or token is used only when `main` runs the device flow, and is then the flow's result |
| `Cli.FlagWins` | src/main.rs:42-43 | a `--token` value is used whatever the environment holds |
| `Cli.EnvironmentPrecedence` | src/main.rs:44-45 | without the flag, `GH_TOKEN` is used when set, and `GITHUB_AUTH` only when `GH_TOKEN` is unset |
| `Cli.NoTokenSource` | src/main.rs:46-53 | with no flag and no environment token, the device flow's result decides on a terminal; otherwise the exit status is 1 |
| `Cli.DeviceFlowOnlyWhenNeeded` | src/main.rs:42-56 | unless there is no flag, no environment token and a terminal, the device flow's result has no effect |
| `Cli.MainFlow` | src/main.rs:33-61 | a download is started only for an accepted repo argument |
| `Cli.AcceptedArgumentDownloads` | src/main.rs:33-61 | an accepted argument with a flag, an environment token, or a successful device flow on a terminal always starts the download |
| `Cli.NoTokenExits` | src/main.rs:46-53 | an accepted argument with no flag and no environment token exits with status 1 off a terminal, and returns the device flow's error on a terminal when the flow fails |
| `Cli.InvalidRepoFailsFirst` | src/main.rs:33-37 | an argument without exactly one '/' fails with "Invalid repo format" whatever the token sources hold |
| `Cli.DownloadIsOfTheArgument` | src/main.rs:38-61 | every download is of the URL built from the argument as given, with the token from the first available source in the order flag, `GH_TOKEN`, `GITHUB_AUTH`, device flow |
| `Cli.DeviceFlowTokenIsCachedOrGranted` | src/main.rs:47-49 | a download that uses the token from `get_github_token` uses a token that was already in the keychain, with no poll, or, on a cache miss, the `access_token` of a 200 reply to the last poll |

## Left out

- HTTP transport: the POST/GET requests, their headers, and form and JSON encoding (src/github_device_flow.rs:80-92, 126-136). They are foreign library calls. Each request is replaced by its reply, given as a value. A failure to send becomes `Http`, and so does a body that does not decode. The endpoint URLs, the client id, the scope and the grant type are not modelled, and neither is the device code sent back with each poll.
- Real time and sleeping (`Instant::now`, `thread::sleep`): the clock counts whole seconds. Sub-second durations are not modelled.
- DeviceFlow.PollForToken: the interval and expiry are unbounded naturals. Rust's `Duration` addition would panic if `interval + 5` overflowed 64-bit seconds; that panic is not modelled.
- DeviceFlowProperties.AlwaysFinishes: needs an interval of at least one second. The source always ends: its `Instant` clock advances on every iteration, so `start_time.elapsed() > expires_in` (src/github_device_flow.rs:117) eventually holds. The model's clock counts whole seconds and a request may take 0 of them, so with an interval of 0 a model run can repeat without the clock moving; only the length of the script then bounds it.
- Interactive I/O (src/github_device_flow.rs:95-103): printing, and opening the browser, which has no effect even when it fails. Reading stdin is kept only as success or failure.
- Logging (`log::info!`, `env_logger::init`) and the printing in `main`.
- src/keychain.rs is not part of this model. It is a thin wrapper over the OS secret store. The store is an abstract map from (service, user) to a token, or unreachable. A failing `Entry::new` counts as unreachable. The code at src/github_device_flow.rs:173 matches the lookup's result against `Some`, but `get_password` yields a plain `String` (as src/keychain.rs:10-11 shows), so that line does not compile. The model reads the lookup as returning an optional token, with a missing entry as `None`.
- src/config.rs is not part of this model (filesystem, home directory, YAML). src/utils.rs is not part of this model either (it only formats an HTTP response for logging).
- src/errors.rs: only its four variants are kept. The `From` conversions are implicit.
- The tarball download and file write (src/main.rs:62-98): network and file I/O. The model stops at the URL and the token the download would use.
- Cli.ChooseToken: `get_github_token()?` at src/main.rs:49 does not compile either. `get_github_token` fails with a boxed error, and src/errors.rs:12-18 and 22-30 give `DeviceFlowError` no conversion from one. The model reads that `?` as passing the device flow's error through unchanged (`Fail(e)`).
- Cli.ChooseToken: `std::env::var` also fails on a value that is not valid Unicode, and then falls through to the next source. The environment map holds only readable values.

## Findings

| source | as written | input that shows it | evidently intended | confidence | as-written member | corrected member |
|---|---|---|---|---|---|---|
| src/github_device_flow.rs:177 | `create_github_token()?;` discards the token obtained on a cache miss, and the body then ends in `()` where `Result<String, _>` is required; rustc rejects this, so the as-written member models the text, not a binary that could run | an empty keychain and a device flow whose first poll returns `access_token` | return the device flow's token | high; not executed | `DeviceFlowProperties.AsWrittenDropsGrantedToken` | `DeviceFlowProperties.CacheMissRunsDeviceFlow` |
