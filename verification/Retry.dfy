/** The retry decorator: how often it calls, when it gives up, and how long it sleeps. */
module Retry {
  import opened Basics

  datatype Attempt = Returns | RaisesExpected | RaisesOther

  /** One call of the decorated function, and the time since the first call when it ended. */
  datatype Call = Call(attempt: Attempt, elapsed: real)

  /** `timeout` is 0.0 where the source takes 0 or None, which both mean no limit. */
  datatype Config = Config(maxRetryCount: Option<int>, timeout: real, incSleep: real, maxSleep: real)

  datatype End = Returned | Reraised | StillTrying

  datatype Run = Run(calls: nat, sleeps: seq<real>, end: End)

  function MinReal(a: real, b: real): real {
    if b < a then b else a
  }

  /** `tries_left and (time_left == 'undefined' or time_left > 0)`. */
  predicate ShouldRetry(cfg: Config, tryCount: nat, elapsed: real) {
    && (cfg.maxRetryCount.None? || cfg.maxRetryCount.value - tryCount != 0)
    && (cfg.timeout == 0.0 || cfg.timeout - elapsed > 0.0)
  }

  function NextSleep(cfg: Config, sleepTime: real, elapsed: real): real {
    var s := MinReal(sleepTime + cfg.incSleep, cfg.maxSleep);
    if cfg.timeout == 0.0 then s else MinReal(s, cfg.timeout - elapsed)
  }

  /** The decorated call when the function behaves as in the script, from its i-th call on. */
  function RunFrom(cfg: Config, script: seq<Call>, i: nat, tryCount: nat, sleepTime: real): Run
    requires i <= |script|
    decreases |script| - i
  {
    if i == |script| then Run(0, [], StillTrying)
    else
      match script[i].attempt
      case Returns => Run(1, [], Returned)
      case RaisesOther => Run(1, [], Reraised)
      case RaisesExpected =>
        if !ShouldRetry(cfg, tryCount, script[i].elapsed) then Run(1, [], Reraised)
        else
          var s := NextSleep(cfg, sleepTime, script[i].elapsed);
          var r := RunFrom(cfg, script, i + 1, tryCount + 1, s);
          Run(r.calls + 1, [s] + r.sleeps, r.end)
  }

  function RunOf(cfg: Config, script: seq<Call>): Run {
    RunFrom(cfg, script, 0, 0, 0.0)
  }

  /** The endless loop of the decorator, as far as the script goes. */
  method Inner(cfg: Config, script: seq<Call>) returns (r: Run)
    ensures r == RunOf(cfg, script)
  {
    var tryCount, sleepTime := 0, 0.0;
    var sleeps: seq<real> := [];
    var i := 0;
    while i < |script|
      invariant i <= |script| && |sleeps| == i == tryCount
      invariant
        var rest := RunFrom(cfg, script, i, tryCount, sleepTime);
        RunOf(cfg, script) == Run(rest.calls + i, sleeps + rest.sleeps, rest.end)
    {
      match script[i].attempt {
        case Returns => return Run(i + 1, sleeps, Returned);
        case RaisesOther => return Run(i + 1, sleeps, Reraised);
        case RaisesExpected =>
          if !ShouldRetry(cfg, tryCount, script[i].elapsed) {
            return Run(i + 1, sleeps, Reraised);
          }
          tryCount := tryCount + 1;
          sleepTime := NextSleep(cfg, sleepTime, script[i].elapsed);
          Associates(sleeps, [sleepTime], RunFrom(cfg, script, i + 1, tryCount, sleepTime).sleeps);
          sleeps := sleeps + [sleepTime];
      }
      i := i + 1;
    }
    return Run(i, sleeps, StillTrying);
  }

  /* ---------- How often ---------- */

  /** At most one call more than the retries, whatever the function and the clock do. */
  lemma {:induction false} CallsAreBounded(cfg: Config, script: seq<Call>, i: nat, tryCount: nat, sleepTime: real)
    requires i <= |script| && cfg.maxRetryCount.Some? && tryCount <= cfg.maxRetryCount.value
    ensures
      var r := RunFrom(cfg, script, i, tryCount, sleepTime);
      && r.calls <= cfg.maxRetryCount.value - tryCount + 1
      && |r.sleeps| == (if r.end == StillTrying then r.calls else r.calls - 1)
    decreases |script| - i
  {
    if i < |script| && script[i].attempt == RaisesExpected && ShouldRetry(cfg, tryCount, script[i].elapsed) {
      CallsAreBounded(cfg, script, i + 1, tryCount + 1, NextSleep(cfg, sleepTime, script[i].elapsed));
    }
  }

  ghost predicate AlwaysFails(script: seq<Call>) {
    forall i :: 0 <= i < |script| ==> script[i].attempt == RaisesExpected
  }

  /** A function that always fails, without a timeout: the error comes out exactly when the count
      of retries is a number that is not negative, and then after one call more than that. */
  lemma {:induction false} GivesUpIff(cfg: Config, script: seq<Call>, i: nat, tryCount: nat, sleepTime: real)
    requires i <= |script| && AlwaysFails(script) && cfg.timeout == 0.0
    requires cfg.maxRetryCount.Some? && cfg.maxRetryCount.value >= 0 ==> tryCount <= cfg.maxRetryCount.value
    ensures
      var r := RunFrom(cfg, script, i, tryCount, sleepTime);
      var left := if cfg.maxRetryCount.Some? then cfg.maxRetryCount.value - tryCount else -1;
      && (r.end == Reraised <==> 0 <= left < |script| - i)
      && r.calls == (if 0 <= left then Min(left + 1, |script| - i) else |script| - i)
    decreases |script| - i
  {
    if i < |script| && ShouldRetry(cfg, tryCount, script[i].elapsed) {
      GivesUpIff(cfg, script, i + 1, tryCount + 1, NextSleep(cfg, sleepTime, script[i].elapsed));
    }
  }

  /** A function that recovers after some failures: it is called until then, if the retries last. */
  lemma {:induction false} RecoversIff(cfg: Config, script: seq<Call>, failures: nat, i: nat, sleepTime: real)
    requires i <= failures < |script| && cfg.timeout == 0.0
    requires cfg.maxRetryCount.Some? && i <= cfg.maxRetryCount.value
    requires AlwaysFails(script[..failures]) && script[failures].attempt == Returns
    ensures
      var r := RunFrom(cfg, script, i, i, sleepTime);
      && (r.end == Returned <==> failures <= cfg.maxRetryCount.value)
      && r.calls == Min(failures, cfg.maxRetryCount.value) + 1 - i
    decreases failures - i
  {
    if i < failures {
      assert script[..failures][i] == script[i];
      if ShouldRetry(cfg, i, script[i].elapsed) {
        RecoversIff(cfg, script, failures, i + 1, NextSleep(cfg, sleepTime, script[i].elapsed));
      }
    }
  }

  /** The k-th call fails as expected, and no retry is left or the time is up. */
  predicate GivesUpAt(cfg: Config, script: seq<Call>, k: nat)
    requires k < |script|
  {
    script[k].attempt == RaisesExpected
    && (cfg.maxRetryCount == Some(k) || (cfg.timeout != 0.0 && script[k].elapsed >= cfg.timeout))
  }

  predicate EndsAt(cfg: Config, script: seq<Call>, k: nat)
    requires k < |script|
  {
    script[k].attempt == Returns || script[k].attempt == RaisesOther || GivesUpAt(cfg, script, k)
  }

  /** With or without a timeout: the decorated call ends with the first call that returns, raises
      another error, or fails with no retry or no time left; and goes on where there is none. */
  lemma {:induction false} EndsWithFirst(cfg: Config, script: seq<Call>, i: nat, sleepTime: real) returns (k: nat)
    requires i <= |script|
    ensures i <= k <= |script| && (forall j :: i <= j < k ==> !EndsAt(cfg, script, j))
    ensures k < |script| ==> EndsAt(cfg, script, k)
    ensures
      var r := RunFrom(cfg, script, i, i, sleepTime);
      && r.calls == (if k < |script| then k + 1 else k) - i
      && r.end == if k == |script| then StillTrying else if script[k].attempt == Returns then Returned else Reraised
    decreases |script| - i
  {
    if i == |script| || EndsAt(cfg, script, i) {
      k := i;
    } else {
      k := EndsWithFirst(cfg, script, i + 1, NextSleep(cfg, sleepTime, script[i].elapsed));
    }
  }

  /* ---------- How long ---------- */

  /** n increments. */
  function Times(n: nat, x: real): real {
    if n == 0 then 0.0 else Times(n - 1, x) + x
  }

  lemma {:induction false} TimesIsProduct(n: nat, x: real)
    ensures Times(n, x) == n as real * x
  {
    if n > 0 {
      TimesIsProduct(n - 1, x);
      var m := (n - 1) as real;
      assert n as real == m + 1.0;
      OneMore(m, x);
    }
  }

  lemma {:induction false} OneMore(m: real, x: real)
    ensures (m + 1.0) * x == m * x + x
  {
  }

  /** Without a timeout the k-th sleep is k increments, up to the maximum. */
  lemma {:induction false} SleepSchedule(cfg: Config, script: seq<Call>, i: nat, tryCount: nat, sleepTime: real, k: nat)
    requires i <= |script| && cfg.timeout == 0.0 && cfg.incSleep >= 0.0
    requires sleepTime == if tryCount == 0 then 0.0 else MinReal(Times(tryCount, cfg.incSleep), cfg.maxSleep)
    requires k < |RunFrom(cfg, script, i, tryCount, sleepTime).sleeps|
    ensures RunFrom(cfg, script, i, tryCount, sleepTime).sleeps[k]
         == MinReal(Times(tryCount + k + 1, cfg.incSleep), cfg.maxSleep)
    decreases k
  {
    if k > 0 {
      SleepSchedule(cfg, script, i + 1, tryCount + 1, NextSleep(cfg, sleepTime, script[i].elapsed), k - 1);
    }
  }

  /** With or without a timeout every sleep is the one before it and an increment, up to the maximum
      and up to the time that is left. */
  lemma {:induction false} SleepIs(cfg: Config, script: seq<Call>, i: nat, tryCount: nat, sleepTime: real, k: nat)
    requires i <= |script| && k < |RunFrom(cfg, script, i, tryCount, sleepTime).sleeps|
    ensures i + k < |script|
    ensures
      var sleeps := RunFrom(cfg, script, i, tryCount, sleepTime).sleeps;
      var longer := (if k == 0 then sleepTime else sleeps[k - 1]) + cfg.incSleep;
      var left := cfg.timeout - script[i + k].elapsed;
      && (sleeps[k] == longer || sleeps[k] == cfg.maxSleep || (cfg.timeout != 0.0 && sleeps[k] == left))
      && sleeps[k] <= longer && sleeps[k] <= cfg.maxSleep && (cfg.timeout != 0.0 ==> sleeps[k] <= left)
    decreases k
  {
    if k > 0 {
      SleepIs(cfg, script, i + 1, tryCount + 1, NextSleep(cfg, sleepTime, script[i].elapsed), k - 1);
    }
  }

  function Sum(xs: seq<real>): real {
    if xs == [] then 0.0 else xs[0] + Sum(xs[1..])
  }

  /** The clock, at the end of every call, shows at least the time slept before it. */
  ghost predicate ClockAdvances(script: seq<Call>, i: nat, sleeps: seq<real>, slept: real) {
    forall k :: 0 <= k <= |sleeps| && i + k < |script| ==> script[i + k].elapsed >= slept + Sum(sleeps[..k])
  }

  /** With a timeout the sleeps together never exceed it. */
  lemma {:induction false} SleepsWithinTimeout(
    cfg: Config, script: seq<Call>, i: nat, tryCount: nat, sleepTime: real, slept: real)
    requires i <= |script| && cfg.timeout != 0.0
    requires ClockAdvances(script, i, RunFrom(cfg, script, i, tryCount, sleepTime).sleeps, slept)
    ensures
      var sleeps := RunFrom(cfg, script, i, tryCount, sleepTime).sleeps;
      sleeps != [] ==> slept + Sum(sleeps) <= cfg.timeout
    decreases |script| - i
  {
    var sleeps := RunFrom(cfg, script, i, tryCount, sleepTime).sleeps;
    if sleeps != [] {
      var s := NextSleep(cfg, sleepTime, script[i].elapsed);
      var rest := RunFrom(cfg, script, i + 1, tryCount + 1, s).sleeps;
      assert sleeps[0] == s && sleeps[1..] == rest;
      assert script[i + 0].elapsed >= slept + Sum(sleeps[..0]);
      forall k | 0 <= k <= |rest| && i + 1 + k < |script|
        ensures script[i + 1 + k].elapsed >= slept + s + Sum(rest[..k])
      {
        assert sleeps[..k + 1][1..] == rest[..k];
        assert script[i + (k + 1)].elapsed >= slept + Sum(sleeps[..k + 1]);
      }
      SleepsWithinTimeout(cfg, script, i + 1, tryCount + 1, s, slept + s);
    }
  }
}
