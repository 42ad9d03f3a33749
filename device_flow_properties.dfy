/** What the device-flow client of src/github_device_flow.rs guarantees:
    precedence inside one poll reply, the timing of the polling loop, where it
    stops, that it ends by itself, and how the token cache short-circuits it. */
module DeviceFlowProperties {
  import opened Errors
  import opened DeviceFlow

  // ---------------------------------------------------------------------------
  // One poll reply

  /** A 200 reply carrying `access_token` yields the token whatever `error` says. */
  lemma TokenTakesPrecedence(token: string, error: Option<string>)
    ensures Classify(PollAnswered(STATUS_OK, TokenPollResponse(Some(token), error))) == Granted(token)
    ensures Verdict(Granted(token)) == Ok(token)
  {
  }

  /** A status other than 200 ends the loop whatever the body holds. */
  lemma NonOkStatusIsFatal(status: nat, body: TokenPollBody)
    requires status != STATUS_OK
    ensures var o := Classify(PollAnswered(status, body));
      !Waits(o) && Verdict(o) == Err(Other(POLL_FAILED))
  {
  }

  /** An `error` code other than the three the loop recognises ends it with
      "Failed to get token: " followed by exactly that code. */
  lemma UnknownCodeIsReported(code: string)
    requires code != AUTHORIZATION_PENDING && code != SLOW_DOWN && code != EXPIRED_TOKEN
    ensures var o := Classify(PollAnswered(STATUS_OK, TokenPollResponse(None, Some(code))));
      o == Rejected(code) && !Waits(o) && Verdict(o) == Err(Other(PROVIDER_ERROR_PREFIX + code))
  {
  }

  /** A 200 reply with neither field ends the loop with "Failed to get token";
      a poll that could not be sent, or a 200 whose body does not decode, ends
      it with the HTTP client's error. */
  lemma OtherTerminalReplies()
    ensures var o := Classify(PollAnswered(STATUS_OK, TokenPollResponse(None, None)));
      !Waits(o) && Verdict(o) == Err(Other(NO_TOKEN))
    ensures var o := Classify(PollSendFailed);
      !Waits(o) && Verdict(o) == Err(Http)
    ensures var o := Classify(PollAnswered(STATUS_OK, NotJson));
      !Waits(o) && Verdict(o) == Err(Http)
  {
  }

  /** The loop waits exactly on `authorization_pending` and `slow_down`, and
      every other reply ends it. */
  lemma WaitsExactly(reply: PollReply)
    ensures Waits(Classify(reply)) <==>
      reply.PollAnswered? && reply.status == STATUS_OK && reply.body.TokenPollResponse? &&
      reply.body.accessToken.None? && reply.body.error.Some? &&
      (reply.body.error.value == AUTHORIZATION_PENDING || reply.body.error.value == SLOW_DOWN)
  {
  }

  // ---------------------------------------------------------------------------
  // Shape of a run

  /** Every sleep of a run follows the reply of the poll with the same index:
      that reply was `authorization_pending` or `slow_down`, and the sleep is
      the fixed interval, plus the penalty after `slow_down` only. Earlier
      `slow_down` replies never lengthen a later sleep. */
  lemma {:induction false} SleepsFollowReplies(interval: nat, expiresIn: nat, script: seq<Exchange>, now: nat)
    ensures var t := Run(interval, expiresIn, script, now);
      forall k :: 0 <= k < |t.sleeps| ==>
        Waits(Classify(script[k].reply)) && t.sleeps[k] == Delay(Classify(script[k].reply), interval)
    decreases |script|
  {
    if now <= expiresIn && script != [] && Waits(Classify(script[0].reply)) {
      var o := Classify(script[0].reply);
      var later := now + script[0].latency + Delay(o, interval);
      SleepsFollowReplies(interval, expiresIn, script[1..], later);
    }
  }

  /** The sleep after each reply, by its code: exactly the interval after an
      `authorization_pending` reply and the interval plus 5 seconds after a
      `slow_down` reply; no other reply is followed by a sleep. */
  lemma SleepPerCode(interval: nat, expiresIn: nat, script: seq<Exchange>, now: nat)
    ensures var t := Run(interval, expiresIn, script, now);
      forall k :: 0 <= k < |t.sleeps| ==>
        (script[k].reply == PollAnswered(STATUS_OK, TokenPollResponse(None, Some(AUTHORIZATION_PENDING))) &&
         t.sleeps[k] == interval) ||
        (script[k].reply == PollAnswered(STATUS_OK, TokenPollResponse(None, Some(SLOW_DOWN))) &&
         t.sleeps[k] == interval + SLOW_DOWN_PENALTY)
  {
    SleepsFollowReplies(interval, expiresIn, script, now);
  }

  /** The clock reading at each poll: the first is the starting time, each
      later one adds the previous request's duration and the sleep after it,
      and no poll is issued after the expiry. */
  lemma {:induction false} PollClock(interval: nat, expiresIn: nat, script: seq<Exchange>, now: nat)
    ensures var t := Run(interval, expiresIn, script, now);
      && (|t.pollTimes| > 0 ==> t.pollTimes[0] == now)
      && (forall k :: 0 <= k < |t.pollTimes| ==> now <= t.pollTimes[k] <= expiresIn)
      && (forall j {:trigger script[j]} :: 0 <= j < |t.pollTimes| - 1 ==>
            j < |t.sleeps| && t.pollTimes[j + 1] == t.pollTimes[j] + script[j].latency + t.sleeps[j])
    decreases |script|
  {
    if now <= expiresIn && script != [] && Waits(Classify(script[0].reply)) {
      var o := Classify(script[0].reply);
      var later := now + script[0].latency + Delay(o, interval);
      PollClock(interval, expiresIn, script[1..], later);
    }
  }

  /** How each run ends: the deadline passed before a poll, the script ran
      out, or the last reply polled was one that ends the loop and the result
      is that reply's verdict. Only in the last case is there one poll more
      than there are sleeps. */
  lemma {:induction false} OutcomeExplained(interval: nat, expiresIn: nat, script: seq<Exchange>, now: nat)
    ensures var t := Run(interval, expiresIn, script, now);
      var n := |t.pollTimes|;
      && (n == |t.sleeps| ==> t.outcome == Finished(Err(Other(TIMED_OUT))) || t.outcome.ScriptExhausted?)
      && (n == |t.sleeps| + 1 ==>
            var o := Classify(script[n - 1].reply);
            !Waits(o) && t.outcome == Finished(Verdict(o)))
    decreases |script|
  {
    if now <= expiresIn && script != [] && Waits(Classify(script[0].reply)) {
      var o := Classify(script[0].reply);
      var later := now + script[0].latency + Delay(o, interval);
      OutcomeExplained(interval, expiresIn, script[1..], later);
    }
  }

  /** A token is returned only when the last reply polled was a 200 whose
      `access_token` is that token. */
  lemma {:induction false} TokenOnlyFromGrant(interval: nat, expiresIn: nat, script: seq<Exchange>, now: nat, token: string)
    requires Run(interval, expiresIn, script, now).outcome == Finished(Ok(token))
    ensures var n := |Run(interval, expiresIn, script, now).pollTimes|;
      n >= 1 &&
      var reply := script[n - 1].reply;
      reply.PollAnswered? && reply.status == STATUS_OK &&
      reply.body.TokenPollResponse? && reply.body.accessToken == Some(token)
  {
    OutcomeExplained(interval, expiresIn, script, now);
  }

  /** Once a reply that ends the loop is polled (every earlier one having
      asked to wait), no further poll is issued: the run has at most that many
      polls, and if it got that far its result is that reply's verdict.
      Otherwise the deadline passed first. */
  lemma {:induction false} StopsAtFirstTerminal(interval: nat, expiresIn: nat, script: seq<Exchange>, now: nat, k: nat)
    requires k < |script|
    requires forall j :: 0 <= j < k ==> Waits(Classify(script[j].reply))
    requires !Waits(Classify(script[k].reply))
    ensures var t := Run(interval, expiresIn, script, now);
      && |t.pollTimes| <= k + 1
      && (|t.pollTimes| == k + 1 ==> t.outcome == Finished(Verdict(Classify(script[k].reply))))
      && (|t.pollTimes| < k + 1 ==> t.outcome == Finished(Err(Other(TIMED_OUT))))
    decreases k
  {
    if now <= expiresIn && k > 0 {
      var o := Classify(script[0].reply);
      var later := now + script[0].latency + Delay(o, interval);
      StopsAtFirstTerminal(interval, expiresIn, script[1..], later, k - 1);
    }
  }

  // ---------------------------------------------------------------------------
  // The deadline

  /** Past the expiry the loop fails with the timeout error before polling. */
  lemma TimesOutWithoutPolling(interval: nat, expiresIn: nat, script: seq<Exchange>, now: nat)
    requires now > expiresIn
    ensures Run(interval, expiresIn, script, now) == Trace(Finished(Err(Other(TIMED_OUT))), [], [])
  {
  }

  /** At exactly the expiry the loop still polls. */
  lemma PollsAtExactExpiry(interval: nat, expiresIn: nat, script: seq<Exchange>)
    requires script != []
    ensures var t := Run(interval, expiresIn, script, expiresIn);
      |t.pollTimes| >= 1 && t.pollTimes[0] == expiresIn
  {
  }

  /** Successive polls are at least one interval apart. */
  lemma {:induction false} PollsSpacedByInterval(interval: nat, expiresIn: nat, script: seq<Exchange>, now: nat)
    ensures forall k :: 0 <= k < |Run(interval, expiresIn, script, now).pollTimes| ==>
      Run(interval, expiresIn, script, now).pollTimes[k] >= now + k * interval
    decreases |script|
  {
    var t := Run(interval, expiresIn, script, now);
    if now <= expiresIn && script != [] && Waits(Classify(script[0].reply)) {
      var o := Classify(script[0].reply);
      var later := now + script[0].latency + Delay(o, interval);
      var rest := Run(interval, expiresIn, script[1..], later);
      PollsSpacedByInterval(interval, expiresIn, script[1..], later);
      assert t.pollTimes == [now] + rest.pollTimes;
      assert later >= now + interval;
      forall k | 1 <= k < |t.pollTimes|
        ensures t.pollTimes[k] >= now + k * interval
      {
        var j := k - 1;
        assert 0 <= j < |rest.pollTimes|;
        assert t.pollTimes[k] == rest.pollTimes[j];
        assert rest.pollTimes[j] >= later + j * interval;
        assert (k - 1) * interval + interval == k * interval;
      }
    }
  }

  /** With a positive interval the number of polls is bounded by the expiry:
      every poll but the first costs at least one interval of the time left. */
  lemma {:induction false} PollCountBounded(interval: nat, expiresIn: nat, script: seq<Exchange>, now: nat)
    ensures var t := Run(interval, expiresIn, script, now);
      |t.pollTimes| >= 1 ==> now + (|t.pollTimes| - 1) * interval <= expiresIn
  {
    var t := Run(interval, expiresIn, script, now);
    PollsSpacedByInterval(interval, expiresIn, script, now);
    PollClock(interval, expiresIn, script, now);
    if |t.pollTimes| >= 1 {
      assert t.pollTimes[|t.pollTimes| - 1] <= expiresIn;
    }
  }

  /** A run that exhausts a non-empty script polled its first reply, which
      asked to wait, and the rest of the run exhausts the rest of the script. */
  lemma ExhaustedStep(interval: nat, expiresIn: nat, script: seq<Exchange>, now: nat)
    requires script != []
    requires Run(interval, expiresIn, script, now).outcome.ScriptExhausted?
    ensures now <= expiresIn && Waits(Classify(script[0].reply))
    ensures Run(interval, expiresIn, script[1..],
                now + script[0].latency + Delay(Classify(script[0].reply), interval)).outcome.ScriptExhausted?
  {
  }

  /** One more step of `interval` seconds. */
  lemma OneMoreInterval(n: nat, interval: nat)
    ensures n * interval + interval == (n + 1) * interval
  {
  }

  /** The script can run out only if every one of its replies asked to wait
      and all the waiting fitted before the expiry. */
  lemma {:induction false} ExhaustionNeedsTime(interval: nat, expiresIn: nat, script: seq<Exchange>, now: nat)
    requires Run(interval, expiresIn, script, now).outcome.ScriptExhausted?
    ensures now + |script| * interval <= expiresIn
    decreases |script|
  {
    if script != [] {
      ExhaustedStep(interval, expiresIn, script, now);
      var later := now + script[0].latency + Delay(Classify(script[0].reply), interval);
      ExhaustionNeedsTime(interval, expiresIn, script[1..], later);
      assert later >= now + interval;
      OneMoreInterval(|script[1..]|, interval);
    }
  }

  /** The loop ends by itself: with a positive interval, a script with more
      replies than the expiry leaves room for always reaches a result, however
      the server answers. */
  lemma AlwaysFinishes(interval: nat, expiresIn: nat, script: seq<Exchange>)
    requires interval >= 1 && |script| * interval > expiresIn
    ensures Run(interval, expiresIn, script, 0).outcome.Finished?
  {
    if Run(interval, expiresIn, script, 0).outcome.ScriptExhausted? {
      ExhaustionNeedsTime(interval, expiresIn, script, 0);
    }
  }

  // ---------------------------------------------------------------------------
  // Scenarios

  function Reply(accessToken: Option<string>, error: Option<string>): Exchange {
    Exchange(0, PollAnswered(STATUS_OK, TokenPollResponse(accessToken, error)))
  }

  /** Two `authorization_pending` replies, then a token: the token is returned
      after exactly two sleeps of the interval. */
  lemma PendingThenGranted()
    ensures var response := DeviceCodeResponse("D1", "ABCD-1234", "https://example/device", 600, 5);
      var script := [Reply(None, Some("authorization_pending")), Reply(None, Some("authorization_pending")),
                     Reply(Some("tok_abc"), None)];
      CreateGithubToken(CodeAnswered(STATUS_OK, Some(response)), true, script) ==
        Trace(Finished(Ok("tok_abc")), [0, 5, 10], [5, 5])
  {
  }

  /** Two `slow_down` replies from an interval of 5 give two sleeps of 10: the
      penalty is not carried over to the next sleep. */
  lemma SlowDownIsNotCumulative()
    ensures var script := [Reply(None, Some("slow_down")), Reply(None, Some("slow_down")),
                           Reply(Some("tok"), None)];
      Run(5, 600, script, 0) == Trace(Finished(Ok("tok")), [0, 10, 20], [10, 10])
  {
  }

  /** `slow_down` then `expired_token`: the run fails with the expiry message
      after two polls, leaving the later replies unused. */
  lemma SlowDownThenExpired()
    ensures var script := [Reply(None, Some("slow_down")), Reply(None, Some("expired_token")),
                           Reply(Some("tok"), None)];
      Run(5, 600, script, 0) == Trace(Finished(Err(Other(DEVICE_TOKEN_EXPIRED))), [0, 10], [10])
  {
  }

  /** An expiry of 1 second and an interval of 5: after one pending reply the
      clock is past the expiry and the loop times out without a second poll. */
  lemma ShortExpiryTimesOut()
    ensures var script := [Reply(None, Some("authorization_pending")), Reply(Some("tok"), None)];
      Run(5, 1, script, 0) == Trace(Finished(Err(Other(TIMED_OUT))), [0], [5])
  {
  }

  // ---------------------------------------------------------------------------
  // Requesting the device code

  /** Polling starts only after a 200 reply with a decodable device code and a
      successful read of standard input; a refused request reports its status. */
  lemma DeviceCodeStatusGates(reply: DeviceCodeReply, stdinRead: bool, script: seq<Exchange>)
    ensures var t := CreateGithubToken(reply, stdinRead, script);
      && (reply.CodeAnswered? && reply.status != STATUS_OK ==>
            t == FailedBeforePolling(Other(DEVICE_CODE_STATUS_PREFIX + Decimal(reply.status))))
      && (reply.CodeSendFailed? ==> t == FailedBeforePolling(Http))
      && (reply.CodeAnswered? && reply.status == STATUS_OK && reply.body.Some? && stdinRead ==>
            t == Run(reply.body.value.interval, reply.body.value.expiresIn, script, 0))
  {
  }

  // ---------------------------------------------------------------------------
  // The token cache

  /** A cached token is returned at once: no poll, no sleep, whatever the
      device-code endpoint would have answered. */
  lemma CacheHitShortCircuits(keyring: Keyring, reply: DeviceCodeReply, stdinRead: bool, script: seq<Exchange>, token: string)
    requires CachedToken(keyring) == Ok(Some(token))
    ensures GetGithubToken(keyring, reply, stdinRead, script) == Trace(Finished(Ok(token)), [], [])
  {
  }

  /** On a cache miss the device flow runs and its result is the result. */
  lemma CacheMissRunsDeviceFlow(keyring: Keyring, reply: DeviceCodeReply, stdinRead: bool, script: seq<Exchange>)
    requires CachedToken(keyring) == Ok(None)
    ensures GetGithubToken(keyring, reply, stdinRead, script) == CreateGithubToken(reply, stdinRead, script)
  {
  }

  /** A store that cannot be read fails the lookup without running the flow. */
  lemma UnreachableStoreFails(reply: DeviceCodeReply, stdinRead: bool, script: seq<Exchange>)
    ensures GetGithubToken(Unreachable, reply, stdinRead, script) == FailedBeforePolling(Keyring)
  {
  }

  /** A saved token is what the next lookup returns, without the device flow. */
  lemma SaveThenGet(keyring: Keyring, token: string, reply: DeviceCodeReply, stdinRead: bool, script: seq<Exchange>)
    requires SaveToken(keyring, token).Ok?
    ensures GetGithubToken(SaveToken(keyring, token).value, reply, stdinRead, script) == Trace(Finished(Ok(token)), [], [])
  {
  }

  /** Saving twice keeps only the second token. */
  lemma LastSaveWins(keyring: Keyring, first: string, second: string)
    requires keyring.Reachable?
    ensures SaveToken(keyring, first).Ok? && SaveToken(SaveToken(keyring, first).value, second).Ok?
    ensures CachedToken(SaveToken(SaveToken(keyring, first).value, second).value) == Ok(Some(second))
  {
  }

  /** As written, `get_github_token` returns a token only when it was cached:
      a token the device flow obtains is never returned. */
  lemma AsWrittenReturnsOnlyCachedTokens(keyring: Keyring, reply: DeviceCodeReply, stdinRead: bool, script: seq<Exchange>, token: string)
    requires GetGithubTokenAsWritten(keyring, reply, stdinRead, script).Returned?
    requires GetGithubTokenAsWritten(keyring, reply, stdinRead, script).run.outcome == Finished(Ok(token))
    ensures CachedToken(keyring) == Ok(Some(token))
  {
  }

  /** An input on which the as-written function drops a token: an empty
      keychain and a device flow that is granted at the first poll. */
  lemma AsWrittenDropsGrantedToken()
    ensures var response := DeviceCodeResponse("D1", "ABCD-1234", "https://example/device", 600, 5);
      var reply := CodeAnswered(STATUS_OK, Some(response));
      var script := [Reply(Some("tok_abc"), None)];
      && GetGithubTokenAsWritten(Reachable(map[]), reply, true, script).FellThrough?
      && GetGithubToken(Reachable(map[]), reply, true, script).outcome == Finished(Ok("tok_abc"))
  {
  }
}
