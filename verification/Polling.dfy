/** Waiting for a service: the poll step of a run and the healthcheck, both bounded by a deadline. */
module Polling {
  import opened Wrappers

  /** An expectation as the poll evaluates it: a status, and what the body has to contain and satisfy. */
  datatype Expectation = Expectation(status: Option<int>, bodyHolds: string -> bool)

  /** `save` lists the variables to store, each with the path its value is read from. */
  datatype Request = Request(target: string, expectation: Expectation, save: seq<(string, string)>)

  datatype Reply = Reply(actualStatus: Option<int>, body: string, error: Option<string>)

  type Variables = map<string, string>

  /**
   * What the runner meets: how many milliseconds pass before each reading of the clock, during each call and
   * each timer, what each call answers, and which check finds the run cancelled or aborted.
   */
  datatype World = World(
    drift: nat -> nat, latency: nat -> nat, timer: (nat, real) -> nat,
    reply: (nat, Request) -> Reply, aborts: nat -> bool,
    interpolate: (Request, Variables) -> Request, readPath: (string, string) -> Option<string>)

  /** Calls and timers take at least a millisecond each. */
  ghost predicate TakesTime(w: World) {
    && (forall n: nat :: w.latency(n) >= 1)
    && (forall n: nat, d: real :: w.timer(n, d) >= 1)
  }

  /** Clock readings and calls take at most `slack` milliseconds, and timers are late by at most that. */
  ghost predicate IsPrompt(w: World, slack: nat) {
    && (forall n: nat :: w.drift(n) <= slack && w.latency(n) <= slack)
    && (forall n: nat, d: real :: w.timer(n, d) as real <= Max(d, 0.0) + slack as real)
  }

  /** The most time that can go by with `n` checks for cancellation. */
  function Paced(n: int, slack: nat): real {
    n as real * (250.0 + 3.0 * slack as real)
  }

  /** The most time that `n` attempts can take, each with the pause behind it. */
  function Longest(n: int, intervalMs: real, slack: nat): real {
    n as real * (intervalMs + 7.0 * slack as real)
  }

  lemma LongestAdds(n: int, intervalMs: real, slack: nat)
    ensures Longest(n + 1, intervalMs, slack) == Longest(n, intervalMs, slack) + intervalMs + 7.0 * slack as real
  {
  }

  lemma PacedAdds(m: int, n: int, slack: nat)
    ensures Paced(m + n, slack) == Paced(m, slack) + Paced(n, slack)
    ensures Paced(1, slack) == 250.0 + 3.0 * slack as real && Paced(2, slack) == 500.0 + 6.0 * slack as real
  {
  }

  /** How long the timer of a sleep is set, in milliseconds. */
  function SliceLength(deadline: real, now: nat): real {
    Min(250.0, deadline - now as real)
  }

  /** A sleep of `duration` that took `passed` and made `n` checks: hardly longer, and with a check in every slice. */
  ghost predicate IsPunctual(w: World, duration: real, passed: int, n: int) {
    forall slack: nat :: IsPrompt(w, slack) ==>
      && passed as real <= Max(duration, 0.0) + 4.0 * slack as real
      && passed as real <= 2.0 * slack as real + Paced(n, slack)
  }

  /** `n` attempts and `m` checks after `passed` milliseconds: neither comes much later than it should. */
  ghost predicate KeepsUp(w: World, intervalMs: real, passed: int, n: int, m: int) {
    forall slack: nat :: IsPrompt(w, slack) ==>
      && passed as real <= slack as real + Longest(n, intervalMs, slack)
      && passed as real <= slack as real + Paced(m, slack)
  }

  datatype PollResult = PollPassed(attempts: nat) | TimedOut(attempts: nat) | PollAborted

  predicate IsPassing(w: World, request: Request, reply: Reply) {
    && (reply.error.None? || reply.error.value == "")
    && reply.actualStatus == Some(request.expectation.status.GetOr(200))
    && request.expectation.bodyHolds(reply.body)
  }

  /** The variables after saving what a reply offers; a path that is not found saves nothing. */
  function Saved(w: World, store: Variables, save: seq<(string, string)>, body: string): Variables {
    if save == [] then store
    else
      var before := Saved(w, store, save[..|save| - 1], body);
      var (key, path) := save[|save| - 1];
      var value := w.readPath(body, path);
      if value.Some? then before[key := value.value] else before
  }

  /** Pair `i` of `save` finds a value, and no later pair for the same variable does. */
  predicate IsSavedBy(w: World, save: seq<(string, string)>, body: string, key: string, i: nat) {
    && i < |save| && save[i].0 == key && w.readPath(body, save[i].1).Some?
    && forall j :: i < j < |save| && save[j].0 == key ==> w.readPath(body, save[j].1).None?
  }

  /** A variable gets the value found last for it, and is left alone if none is found. */
  lemma {:induction false} SavedIsFound(w: World, store: Variables, save: seq<(string, string)>, body: string, key: string)
    ensures var r := Saved(w, store, save, body);
            && (forall i: nat :: IsSavedBy(w, save, body, key, i) ==>
                  key in r && r[key] == w.readPath(body, save[i].1).value)
            && ((forall i: nat :: !IsSavedBy(w, save, body, key, i)) ==>
                  (key in r <==> key in store) && (key in store ==> r[key] == store[key]))
    decreases |save|
  {
    if save != [] {
      var n := |save| - 1;
      SavedIsFound(w, store, save[..n], body, key);
      if save[n].0 == key && w.readPath(body, save[n].1).Some? {
        assert IsSavedBy(w, save, body, key, n);
      } else {
        forall i: nat ensures IsSavedBy(w, save, body, key, i) <==> IsSavedBy(w, save[..n], body, key, i) {}
      }
    }
  }

  /** Some check from `from` up to `to` finds the run cancelled or aborted. */
  ghost predicate AbortsWithin(w: World, from: nat, to: nat) {
    exists k :: from <= k < to && w.aborts(k)
  }

  lemma AbortsJoin(w: World, from: nat, via: nat, to: nat)
    requires from <= via <= to
    ensures AbortsWithin(w, from, to) <==> AbortsWithin(w, from, via) || AbortsWithin(w, via, to)
  {
  }

  lemma AbortsAtOne(w: World, k: nat)
    ensures !AbortsWithin(w, k, k) && (AbortsWithin(w, k, k + 1) <==> w.aborts(k))
  {
  }

  class Runner {
    const world: World
    var now: nat
    var readings: nat
    var calls: nat
    var timers: nat
    var checks: nat
    var store: Variables

    constructor (w: World, now: nat, store: Variables)
      ensures world == w && this.now == now && this.store == store
      ensures readings == calls == timers == checks == 0
    {
      world, this.now, this.store := w, now, store;
      readings, calls, timers, checks := 0, 0, 0, 0;
    }

    /** `Date.now()`. */
    method Now() returns (t: nat)
      modifies this`now, this`readings
      ensures t == now == old(now) + world.drift(old(readings)) && readings == old(readings) + 1
    {
      now := now + world.drift(readings);
      readings := readings + 1;
      return now;
    }

    /** `ensureNotCancelled`, which throws if it aborts. */
    method Check() returns (aborted: bool)
      modifies this`checks
      ensures aborted == world.aborts(old(checks)) && checks == old(checks) + 1
    {
      aborted := world.aborts(checks);
      checks := checks + 1;
    }

    method Call(request: Request) returns (reply: Reply)
      modifies this`now, this`calls
      ensures now == old(now) + world.latency(old(calls)) && calls == old(calls) + 1
      ensures reply == world.reply(old(calls), request)
    {
      reply := world.reply(calls, request);
      now := now + world.latency(calls);
      calls := calls + 1;
    }

    /** Judges a reply; only a passing one changes the variables. */
    method EvaluateRequestResult(reply: Reply, request: Request) returns (passed: bool)
      modifies this`store
      ensures passed == IsPassing(world, request, reply)
      ensures passed <==>
                && (reply.error == None || reply.error == Some(""))
                && (if request.expectation.status.None? then reply.actualStatus == Some(200)
                    else reply.actualStatus == request.expectation.status)
                && request.expectation.bodyHolds(reply.body)
      ensures store == if passed then Saved(world, old(store), request.save, reply.body) else old(store)
    {
      passed :=
        && (reply.error.None? || reply.error.value == "")
        && reply.actualStatus == Some(request.expectation.status.GetOr(200))
        && request.expectation.bodyHolds(reply.body);
      if passed {
        for i := 0 to |request.save|
          invariant store == Saved(world, old(store), request.save[..i], reply.body)
        {
          assert request.save[..i + 1][..i] == request.save[..i];
          var (key, path) := request.save[i];
          var value := world.readPath(reply.body, path);
          if value.Some? {
            store := store[key := value.value];
          }
        }
        assert request.save[..|request.save|] == request.save;
      }
    }

    /** One timer, set after a reading of the clock and followed by another one. */
    method Slice(deadline: real) returns (t: nat)
      requires TakesTime(world)
      modifies this`now, this`readings, this`timers
      ensures var woken := old(now) + world.drift(old(readings));
              t == now == woken + world.timer(old(timers), SliceLength(deadline, woken)) + world.drift(old(readings) + 1)
      ensures t > old(now) && readings == old(readings) + 2 && timers == old(timers) + 1
    {
      t := Now();
      now := now + world.timer(timers, SliceLength(deadline, t));
      timers := timers + 1;
      t := Now();
    }

    /** Sleeps until the deadline in slices of at most 250 ms, checking for cancellation before each. */
    method Sleep(duration: real) returns (aborted: bool)
      requires TakesTime(world)
      modifies this`now, this`readings, this`timers, this`checks
      ensures now >= old(now) && checks >= old(checks)
      ensures aborted <==> AbortsWithin(world, old(checks), checks)
      ensures !aborted ==> now as real >= old(now) as real + duration
      ensures !aborted ==> timers - old(timers) == checks - old(checks)
      ensures !aborted ==> IsPunctual(world, duration, now - old(now), checks - old(checks))
    {
      hide IsSleeping, IsPunctual, AbortsWithin;
      var start := Now();
      var deadline := start as real + duration;
      var t := Now();
      AbortsAtOne(world, checks);
      SleepStarts(world, start, deadline, readings - 1);
      while t as real < deadline
        invariant now == t && t >= start >= old(now) && deadline == start as real + duration
        invariant checks >= old(checks) && !AbortsWithin(world, old(checks), checks)
        invariant timers - old(timers) == checks - old(checks)
        invariant start == old(now) + world.drift(old(readings))
        invariant IsSleeping(world, start, deadline, t, checks - old(checks))
        decreases (deadline - t as real).Floor + 1
      {
        AbortsAtOne(world, checks);
        AbortsJoin(world, old(checks), checks, checks + 1);
        aborted := Check();
        if aborted {
          return true;
        }
        ghost var before := t;
        t := Slice(deadline);
        NextSlice(world, start, deadline, before, t, timers - 1, readings - 2, checks - 1 - old(checks));
      }
      SleepIsPunctual(world, start, duration, old(now), t, checks - old(checks), old(readings));
      return false;
    }

    /** One attempt of a poll: the call and the judgement of its reply. */
    method TryOnce(config: Request) returns (aborted: bool, passed: bool)
      requires TakesTime(world)
      modifies this`now, this`calls, this`checks, this`store
      ensures now >= old(now) && checks > old(checks) && (aborted ==> !passed)
      ensures aborted <==> AbortsWithin(world, old(checks), checks)
      ensures old(calls) <= calls <= old(calls) + 1
      ensures !aborted ==> now == old(now) + world.latency(old(calls)) && checks == old(checks) + 2
      ensures !aborted ==>
                && now > old(now) && calls == old(calls) + 1
                && passed == IsPassing(world, Sent(config, old(store)), world.reply(old(calls), Sent(config, old(store))))
      ensures store == if !passed then old(store)
                       else Saved(world, old(store), Sent(config, old(store)).save,
                                  world.reply(old(calls), Sent(config, old(store))).body)
    {
      aborted := Check();
      if aborted {
        return true, false;
      }
      var interpolated := world.interpolate(config, store);
      var reply := Call(interpolated);
      aborted := Check();
      if aborted {
        return true, false;
      }
      passed := EvaluateRequestResult(reply, interpolated);
    }

    /** The request a configuration amounts to under the variables at hand. */
    function Sent(config: Request, variables: Variables): Request {
      world.interpolate(config, variables)
    }

    /** The pause behind a failed attempt, cut short at the deadline; `before` is when it began. */
    method Pause(started: nat, timeoutMs: real, intervalMs: real) returns (aborted: bool, t: nat, ghost before: nat)
      requires TakesTime(world) && intervalMs > 0.0
      modifies this`now, this`readings, this`timers, this`checks
      ensures before >= old(now) && now >= old(now) && checks >= old(checks)
      ensures aborted <==> AbortsWithin(world, old(checks), checks)
      ensures !aborted ==>
                t == now && now as real >= before as real + Min(intervalMs, Max(timeoutMs - (before - started) as real, 0.0))
      ensures !aborted ==> PausesPromptly(world, intervalMs, now - old(now), checks - old(checks))
    {
      ghost var first := readings;
      t := Now();
      before := t;
      ghost var duration := Min(intervalMs, Max(timeoutMs - (t - started) as real, 0.0));
      aborted := Sleep(Min(intervalMs, Max(timeoutMs - (t - started) as real, 0.0)));
      if !aborted {
        ghost var woken, last := now, readings;
        t := Now();
        PauseIsPrompt(world, intervalMs, duration, woken - before, checks - old(checks), first, last);
      }
    }

    /** The poll step: calls until a reply passes, the time is up, or the run is cancelled. */
    method ExecutePoll(config: Request, timeoutMs: real, intervalMs: real) returns (result: PollResult)
      requires TakesTime(world) && timeoutMs > 0.0 && intervalMs > 0.0
      modifies this`now, this`readings, this`calls, this`timers, this`checks, this`store
      ensures result.PollPassed? ==>
                && result.attempts >= 1 && calls == old(calls) + result.attempts
                && FirstPassing(world, Sent(config, old(store)), old(calls), result.attempts - 1)
                && store == Saved(world, old(store), Sent(config, old(store)).save,
                                  world.reply(calls - 1, Sent(config, old(store))).body)
      ensures result.TimedOut? ==>
                && calls == old(calls) + result.attempts
                && NonePassing(world, Sent(config, old(store)), old(calls), result.attempts)
                && (now - old(now) - world.drift(old(readings))) as real > timeoutMs
      ensures checks >= old(checks) && (result.PollAborted? <==> AbortsWithin(world, old(checks), checks))
      ensures result.PollAborted? ==>
                forall k :: old(calls) <= k < calls - 1 ==>
                  !IsPassing(world, Sent(config, old(store)), world.reply(k, Sent(config, old(store))))
      ensures !result.PollPassed? ==> store == old(store)
      ensures !result.PollAborted? ==> Spent(result.attempts - 2, intervalMs) <= timeoutMs
      ensures result.PollPassed? || result.TimedOut? ==> checks >= old(checks) + 2 * result.attempts
      ensures result.PollPassed? ==>
                KeepsUp(world, intervalMs, now - old(now) - world.drift(old(readings)) - world.latency(calls - 1),
                        result.attempts - 1, checks - old(checks) - 2)
      ensures result.TimedOut? ==>
                KeepsUp(world, intervalMs, now - old(now) - world.drift(old(readings)), result.attempts,
                        checks - old(checks))
      ensures result == TimedOut(0) <==> world.drift(old(readings) + 1) as real > timeoutMs
    {
      hide KeepsUp, PausesPromptly, Spent, AbortsWithin, IsOnSchedule, IsPassing, Saved, Min, Max;
      var started := Now();
      var attempts := 0;
      var t := Now();
      AbortsAtOne(world, checks);
      PollStarts(world, timeoutMs, intervalMs, readings - 1);
      while (t - started) as real <= timeoutMs
        invariant now == t >= started >= old(now) && store == old(store) && calls == old(calls) + attempts
        invariant if attempts == 0 then t - started == world.drift(old(readings) + 1)
                  else world.drift(old(readings) + 1) as real <= timeoutMs
        invariant NonePassing(world, Sent(config, old(store)), old(calls), attempts)
        invariant checks >= old(checks) && !AbortsWithin(world, old(checks), checks)
        invariant IsOnSchedule(attempts, (t - started) as real, timeoutMs, intervalMs)
        invariant Spent(attempts - 2, intervalMs) <= timeoutMs
        invariant checks >= old(checks) + 2 * attempts && started == old(now) + world.drift(old(readings))
        invariant KeepsUp(world, intervalMs, t - started, attempts, checks - old(checks))
        decreases (timeoutMs - (t - started) as real).Floor + 1
      {
        StaysOnSchedule(attempts, (t - started) as real, timeoutMs, intervalMs);
        ghost var elapsed, called, checked := t - started, calls, checks;
        var aborted, passed := TryOnce(config);
        AbortsJoin(world, old(checks), checked, checks);
        if aborted {
          return PollAborted;
        }
        attempts := attempts + 1;
        if passed {
          return PollPassed(attempts);
        }
        ghost var before;
        ghost var judged := checks;
        aborted, t, before := Pause(started, timeoutMs, intervalMs);
        AbortsJoin(world, old(checks), judged, checks);
        if aborted {
          return PollAborted;
        }
        StillKeepsUp(world, intervalMs, elapsed, called, attempts - 1, checked - old(checks),
                     t - started - elapsed - world.latency(called), checks - checked - 2);
        NextAttempt(attempts - 1, elapsed as real, (before - started) as real, (t - started) as real, timeoutMs, intervalMs);
      }
      return TimedOut(attempts);
    }
  }

  // ---------- Neither late nor without checks ----------

  /** A sleep that began at `start` and has made `n` checks by `t`. */
  ghost predicate IsSleeping(w: World, start: nat, deadline: real, t: nat, n: int) {
    forall slack: nat :: IsPrompt(w, slack) ==>
      && t as real <= Max(deadline, start as real) + 3.0 * slack as real
      && (t - start) as real <= slack as real + Paced(n, slack)
  }

  lemma SleepStarts(w: World, start: nat, deadline: real, reading: nat)
    ensures IsSleeping(w, start, deadline, start + w.drift(reading), 0)
  {
  }

  lemma NextSlice(w: World, start: nat, deadline: real, before: nat, after: nat, timer: nat, reading: nat, n: int)
    requires IsSleeping(w, start, deadline, before, n) && before as real < deadline
    requires var woken := before + w.drift(reading);
             after == woken + w.timer(timer, SliceLength(deadline, woken)) + w.drift(reading + 1)
    ensures IsSleeping(w, start, deadline, after, n + 1)
  {
    forall slack: nat | IsPrompt(w, slack)
      ensures after as real <= Max(deadline, start as real) + 3.0 * slack as real
      ensures (after - start) as real <= slack as real + Paced(n + 1, slack)
    {
      PacedAdds(n, 1, slack);
      var slice := SliceLength(deadline, before + w.drift(reading));
      assert w.timer(timer, slice) as real <= Max(slice, 0.0) + slack as real;
    }
  }

  lemma SleepIsPunctual(w: World, start: nat, duration: real, asked: nat, t: nat, n: int, reading: nat)
    requires IsSleeping(w, start, start as real + duration, t, n) && start == asked + w.drift(reading)
    ensures IsPunctual(w, duration, t - asked, n)
  {
  }

  /** A pause between two attempts, with the clock readings before and after its sleep. */
  ghost predicate PausesPromptly(w: World, intervalMs: real, passed: int, n: int) {
    forall slack: nat :: IsPrompt(w, slack) ==>
      && passed as real <= intervalMs + 6.0 * slack as real
      && passed as real <= 4.0 * slack as real + Paced(n, slack)
  }

  lemma PauseIsPrompt(w: World, intervalMs: real, duration: real, slept: int, n: int, first: nat, last: nat)
    requires IsPunctual(w, duration, slept, n) && duration <= intervalMs && intervalMs > 0.0
    ensures PausesPromptly(w, intervalMs, w.drift(first) + slept + w.drift(last), n)
  {
  }

  lemma PollStarts(w: World, timeoutMs: real, intervalMs: real, reading: nat)
    requires timeoutMs > 0.0 && intervalMs > 0.0
    ensures KeepsUp(w, intervalMs, w.drift(reading), 0, 0)
    ensures IsOnSchedule(0, w.drift(reading) as real, timeoutMs, intervalMs) && Spent(-2, intervalMs) <= timeoutMs
  {
  }

  lemma StillKeepsUp(w: World, intervalMs: real, passed: int, call: nat, n: int, m: int, paused: int, k: int)
    requires KeepsUp(w, intervalMs, passed, n, m) && PausesPromptly(w, intervalMs, paused, k)
    ensures KeepsUp(w, intervalMs, passed + w.latency(call) + paused, n + 1, m + 2 + k)
  {
    hide Paced, Longest;
    forall slack: nat | IsPrompt(w, slack)
      ensures (passed + w.latency(call) + paused) as real
           <= slack as real + Longest(n + 1, intervalMs, slack)
      ensures (passed + w.latency(call) + paused) as real <= slack as real + Paced(m + 2 + k, slack)
    {
      PacedAdds(m, 2 + k, slack);
      PacedAdds(2, k, slack);
      LongestAdds(n, intervalMs, slack);
    }
  }

  // ---------- The schedule of a poll ----------

  function Min(a: real, b: real): real {
    if a <= b then a else b
  }

  function Max(a: real, b: real): real {
    if a >= b then a else b
  }

  ghost predicate NonePassing(w: World, request: Request, first: nat, n: nat) {
    forall k :: first <= k < first + n ==> !IsPassing(w, request, w.reply(k, request))
  }

  ghost predicate FirstPassing(w: World, request: Request, first: nat, n: nat) {
    NonePassing(w, request, first, n) && IsPassing(w, request, w.reply(first + n, request))
  }

  /** The least time `n` attempts take, each with its call and the pause behind it. */
  function Spent(n: int, intervalMs: real): real {
    n as real * (intervalMs + 1.0)
  }

  lemma SpentAdds(n: int, intervalMs: real)
    ensures Spent(n + 1, intervalMs) == Spent(n, intervalMs) + intervalMs + 1.0
  {
  }

  /**
   * After `n` attempts either all their pauses were full ones, or the last pause was shortened to reach the
   * deadline, or the deadline has passed.
   */
  predicate IsOnSchedule(n: int, elapsed: real, timeoutMs: real, intervalMs: real) {
    && Spent(n - 2, intervalMs) <= timeoutMs
    && (|| elapsed >= Spent(n, intervalMs)
        || (elapsed >= timeoutMs && Spent(n - 1, intervalMs) <= timeoutMs)
        || elapsed > timeoutMs)
  }

  lemma StaysOnSchedule(n: int, elapsed: real, timeoutMs: real, intervalMs: real)
    requires n >= 0 && IsOnSchedule(n, elapsed, timeoutMs, intervalMs) && elapsed <= timeoutMs && intervalMs > 0.0
    ensures Spent(n + 1 - 2, intervalMs) <= timeoutMs
  {
    SpentAdds(n - 1, intervalMs);
  }

  lemma NextAttempt(n: int, elapsed: real, before: real, after: real, timeoutMs: real, intervalMs: real)
    requires n >= 0 && IsOnSchedule(n, elapsed, timeoutMs, intervalMs) && elapsed <= timeoutMs && intervalMs > 0.0
    requires before >= elapsed + 1.0 && after >= before + Min(intervalMs, Max(timeoutMs - before, 0.0))
    ensures IsOnSchedule(n + 1, after, timeoutMs, intervalMs)
  {
    SpentAdds(n, intervalMs);
    SpentAdds(n - 1, intervalMs);
  }

  /** The bound on the attempts of a poll, as a number. */
  lemma AttemptsAreBounded(attempts: nat, timeoutMs: real, intervalMs: real)
    requires timeoutMs > 0.0 && intervalMs > 0.0 && Spent(attempts - 2, intervalMs) <= timeoutMs
    ensures attempts <= (timeoutMs / (intervalMs + 1.0)).Floor + 2
  {
    DivideBoth((attempts - 2) as real, intervalMs + 1.0, timeoutMs);
  }

  /** And it makes them: where calls and timers are at most `slack` late, no attempt and no check is left out. */
  lemma AttemptsAreMade(w: World, slack: nat, timeoutMs: real, intervalMs: real, passed: int, attempts: nat, checks: nat)
    requires IsPrompt(w, slack) && intervalMs > 0.0 && passed as real > timeoutMs
    requires KeepsUp(w, intervalMs, passed, attempts, checks)
    ensures attempts as real >= (timeoutMs - slack as real) / (intervalMs + 7.0 * slack as real)
    ensures checks as real >= (timeoutMs - slack as real) / (250.0 + 3.0 * slack as real)
  {
    DivideOther(attempts as real, intervalMs + 7.0 * slack as real, timeoutMs - slack as real);
    DivideOther(checks as real, 250.0 + 3.0 * slack as real, timeoutMs - slack as real);
  }

  lemma DivideOther(n: real, step: real, total: real)
    requires step > 0.0 && n * step >= total
    ensures n >= total / step
  {
    assert total / step * step == total;
    assert (n - total / step) * step >= 0.0;
  }

  lemma DivideBoth(n: real, step: real, total: real)
    requires step > 0.0 && n * step <= total
    ensures n <= total / step
  {
    assert total / step * step == total;
    assert (total / step - n) * step >= 0.0;
  }

  // ---------- The healthcheck ----------

  datatype Health = Healthy(attempts: nat) | Unhealthy(attempts: nat, actualStatus: Option<int>) | HealthAborted

  /** What the healthcheck meets; a fetch that fails answers no status. */
  datatype Service = Service(
    drift: nat -> nat, latency: nat -> nat, status: nat -> Option<int>, timer: nat -> nat,
    abortsBefore: nat -> bool, abortsDuring: nat -> bool, abortsPause: nat -> bool)

  /** The status of the last of the first `n` fetches that answered at all. */
  function LastStatus(s: Service, n: nat): Option<int> {
    if n == 0 then None else if s.status(n - 1).Some? then s.status(n - 1) else LastStatus(s, n - 1)
  }

  /** A pause is a single timer of a second. */
  ghost predicate PausesFully(s: Service) {
    forall n: nat :: s.timer(n) >= 1000
  }

  /** Of the first `n` fetches the last one that answered answered `status`; none if none did. */
  ghost predicate IsLastStatus(s: Service, n: nat, status: Option<int>) {
    if status.None? then forall k: nat :: k < n ==> s.status(k).None?
    else exists k: nat :: k < n && s.status(k) == status && forall j: nat :: k < j < n ==> s.status(j).None?
  }

  lemma {:induction false} LastStatusIsLast(s: Service, n: nat)
    ensures IsLastStatus(s, n, LastStatus(s, n))
    decreases n
  {
    if n > 0 {
      LastStatusIsLast(s, n - 1);
      if s.status(n - 1).None? && LastStatus(s, n - 1).Some? {
        var k: nat :| k < n - 1 && s.status(k) == LastStatus(s, n - 1)
                      && forall j: nat :: k < j < n - 1 ==> s.status(j).None?;
        assert forall j: nat :: k < j < n ==> s.status(j).None?;
      }
    }
  }

  /** Milliseconds passed when fetch `i` is due. */
  function DueAt(s: Service, i: nat): nat {
    if i == 0 then s.drift(0) else DueAt(s, i - 1) + s.latency(i - 1) + s.timer(i - 1) + s.drift(i)
  }

  /** Fetch `i` does not answer as expected, and neither it nor the pause behind it is called off. */
  predicate GoesOn(s: Service, expectedStatus: int, i: nat) {
    && !s.abortsBefore(i) && s.status(i) != Some(expectedStatus)
    && !(s.status(i).None? && s.abortsDuring(i)) && !s.abortsPause(i)
  }

  /** Fetch `i` is due before the deadline, after all earlier ones went on. */
  ghost predicate IsReached(s: Service, expectedStatus: int, limit: real, i: nat) {
    DueAt(s, i) as real < limit && forall k: nat :: k < i ==> GoesOn(s, expectedStatus, k)
  }

  /** The healthcheck is called off at fetch `i`: before it, while it fails, or in the pause behind it. */
  predicate IsCalledOff(s: Service, expectedStatus: int, i: nat) {
    || s.abortsBefore(i)
    || (s.status(i) != Some(expectedStatus) && ((s.status(i).None? && s.abortsDuring(i)) || s.abortsPause(i)))
  }

  /** Fetch `i` is made and answers as expected. */
  predicate IsAnswered(s: Service, expectedStatus: int, i: nat) {
    !s.abortsBefore(i) && s.status(i) == Some(expectedStatus)
  }

  /** Only the last fetch reached can answer or be called off, and not both. */
  lemma EndsExclude(s: Service, expectedStatus: int, limit: real, i: nat, j: nat)
    requires IsReached(s, expectedStatus, limit, i) && IsCalledOff(s, expectedStatus, i)
    requires forall k: nat :: k < j ==> GoesOn(s, expectedStatus, k)
    ensures j <= i && !IsAnswered(s, expectedStatus, j)
  {
    assert i < j ==> GoesOn(s, expectedStatus, i);
    assert j < i ==> GoesOn(s, expectedStatus, j);
  }

  /** A fetch is reached if none before it was answered as expected or called off at any of the three points. */
  lemma ReachedMeans(s: Service, expectedStatus: int, limit: real, i: nat)
    ensures IsReached(s, expectedStatus, limit, i) <==>
              && DueAt(s, i) as real < limit
              && forall k: nat :: k < i ==>
                   && s.status(k) != Some(expectedStatus) && !s.abortsBefore(k) && !s.abortsPause(k)
                   && (s.status(k) == None ==> !s.abortsDuring(k))
    ensures IsCalledOff(s, expectedStatus, i) <==>
              if s.abortsBefore(i) then true
              else if s.status(i) == Some(expectedStatus) then false
              else s.abortsPause(i) || (s.status(i) == None && s.abortsDuring(i))
  {
    forall k: nat | k < i
      ensures GoesOn(s, expectedStatus, k) <==>
                && s.status(k) != Some(expectedStatus) && !s.abortsBefore(k) && !s.abortsPause(k)
                && (s.status(k) == None ==> !s.abortsDuring(k))
    {}
  }

  lemma {:induction false} DueLater(s: Service, i: nat, j: nat)
    requires i <= j
    ensures DueAt(s, i) <= DueAt(s, j)
    decreases j
  {
    if i < j { DueLater(s, i, j - 1); }
  }

  /** Fetches once a second until the expected status is there or the deadline has passed. */
  method WaitFor(s: Service, expectedStatus: int, timeoutSeconds: real) returns (result: Health)
    requires PausesFully(s)
    ensures result.Healthy? ==>
              && result.attempts >= 1 && IsReached(s, expectedStatus, timeoutSeconds * 1000.0, result.attempts - 1)
              && IsAnswered(s, expectedStatus, result.attempts - 1)
              && s.status(result.attempts - 1) == Some(expectedStatus)
    ensures result.Unhealthy? ==>
              && (forall k: nat :: k < result.attempts ==> GoesOn(s, expectedStatus, k))
              && DueAt(s, result.attempts) as real >= timeoutSeconds * 1000.0
              && IsLastStatus(s, result.attempts, result.actualStatus)
    ensures result.HealthAborted? <==>
              exists i: nat :: IsReached(s, expectedStatus, timeoutSeconds * 1000.0, i) && IsCalledOff(s, expectedStatus, i)
    ensures !result.HealthAborted? && result.attempts > 0 ==> (result.attempts - 1) as real < timeoutSeconds
  {
    var attempts := 0;
    var now := s.drift(0);
    var lastActualStatus: Option<int> := None;
    var limit := timeoutSeconds * 1000.0;
    while now as real < limit
      invariant now == DueAt(s, attempts) && now >= attempts * 1000 && lastActualStatus == LastStatus(s, attempts)
      invariant forall k: nat :: k < attempts ==> GoesOn(s, expectedStatus, k)
      invariant attempts > 0 ==> (attempts - 1) as real < timeoutSeconds
      decreases (limit - now as real).Floor + 1
    {
      assert IsReached(s, expectedStatus, limit, attempts);
      if s.abortsBefore(attempts) {
        assert IsCalledOff(s, expectedStatus, attempts);
        return HealthAborted;
      }
      now := now + s.latency(attempts);
      if s.status(attempts).Some? {
        lastActualStatus := s.status(attempts);
        if s.status(attempts).value == expectedStatus {
          forall i: nat | IsReached(s, expectedStatus, limit, i) ensures !IsCalledOff(s, expectedStatus, i) {
            if IsCalledOff(s, expectedStatus, i) { EndsExclude(s, expectedStatus, limit, i, attempts); }
            assert i > attempts ==> GoesOn(s, expectedStatus, attempts);
          }
          return Healthy(attempts + 1);
        }
      } else if s.abortsDuring(attempts) {
        assert IsCalledOff(s, expectedStatus, attempts);
        return HealthAborted;
      }
      if s.abortsPause(attempts) {
        assert IsCalledOff(s, expectedStatus, attempts);
        return HealthAborted;
      }
      now := now + s.timer(attempts);
      attempts := attempts + 1;
      now := now + s.drift(attempts);
    }
    forall i: nat | IsReached(s, expectedStatus, limit, i) ensures !IsCalledOff(s, expectedStatus, i) {
      if IsCalledOff(s, expectedStatus, i) { EndsExclude(s, expectedStatus, limit, i, attempts); }
      if attempts <= i { DueLater(s, attempts, i); }
    }
    LastStatusIsLast(s, attempts);
    return Unhealthy(attempts, lastActualStatus);
  }
}
