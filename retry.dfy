/**
 * The retry-with-wait loop the client's four single-request operations share:
 * attempt number 0, 1, ... runs while the attempt counter is at most `retries`;
 * an attempt that returns ends the loop, one that throws is recorded as the last
 * error, the counter goes up, and unless the budget is spent the loop waits
 * `delay(counter)` milliseconds before the next attempt.
 */
module Retry {
  import opened Wrappers
  import opened Wire

  /** How one attempt ended: it returned a response, or it threw an error with this message. */
  datatype Verdict<R> = Return(value: R) | Throw(message: string)

  /** One attempt: its events and its verdict. */
  datatype Step<R> = Step(trace: seq<Event>, verdict: Verdict<R>)

  /** How the whole loop ended: an attempt returned, or the budget ran out; `lastError` is the last thrown message. */
  datatype End<R> = Returned(value: R) | GaveUp(lastError: Option<string>)

  /** The whole loop: its events, how many attempts ran, and how it ended. */
  datatype Run<R> = Run(trace: seq<Event>, attempts: nat, end: End<R>)

  /** The attempts still allowed once the counter is at `count`. */
  function Budget(retries: int, count: nat): (n: nat)
    ensures count <= retries ==> n == retries - count + 1
    ensures retries < count ==> n == 0
  {
    if retries < count then 0 else retries - count + 1
  }

  /**
   * The loop from counter value `count` on. `attempt(k)` is the attempt made
   * when `k` POSTs have been sent before it.
   */
  function RunFrom<R>(attempt: nat -> Step<R>, retries: int, delay: nat -> nat, count: nat, calls: nat): (r: Run<R>)
    ensures r.attempts <= Budget(retries, count)
    ensures count <= retries <==> r.attempts >= 1
    ensures r.end.GaveUp? && r.end.lastError.Some? ==> r.attempts == Budget(retries, count)
    ensures r.end.GaveUp? && r.end.lastError.None? ==> r.attempts == 0
    decreases Budget(retries, count)
  {
    if retries < count then Run([], 0, GaveUp(None))
    else
      var s := attempt(calls);
      match s.verdict
      case Return(v) => Run(s.trace, 1, Returned(v))
      case Throw(msg) =>
        if retries < count + 1 then Run(s.trace, 1, GaveUp(Some(msg)))
        else
          var rest := RunFrom(attempt, retries, delay, count + 1, calls + PostCount(s.trace));
          Run(s.trace + [Wait(delay(count + 1))] + rest.trace, 1 + rest.attempts, rest.end)
  }

  /** `r` continued after `prefix`, `done` attempts having run already. */
  function Glue<R>(prefix: seq<Event>, done: nat, r: Run<R>): (g: Run<R>)
    ensures g.trace == prefix + r.trace && g.end == r.end
    ensures g.attempts == done + r.attempts
  {
    Run(prefix + r.trace, done + r.attempts, r.end)
  }

  /** The waits `delay(from)`, ..., `delay(from + n - 1)`. */
  function Delays(delay: nat -> nat, from: nat, n: nat): (d: seq<nat>)
    ensures |d| == n
    ensures forall j :: 0 <= j < n ==> d[j] == delay(from + j)
    decreases n
  {
    if n == 0 then [] else [delay(from)] + Delays(delay, from + 1, n - 1)
  }

  /** The waits of an attempt that does not wait, the delay after it and the rest. */
  lemma WaitsGlue(t: seq<Event>, a: seq<Event>, b: seq<Event>, delay: nat -> nat, from: nat, n: nat)
    requires t == a + [Wait(delay(from))] + b
    requires WaitTimes(a) == [] && n >= 1 && WaitTimes(b) == Delays(delay, from + 1, n - 1)
    ensures WaitTimes(t) == Delays(delay, from, n)
  {
    WaitBetween(a, delay(from), b);
    DelaysCons(delay, from, n);
  }

  /** The POSTs of an attempt, the delay after it and the rest. */
  lemma PostsGlue(t: seq<Event>, a: seq<Event>, ms: nat, b: seq<Event>, pa: nat, pb: nat)
    requires t == a + [Wait(ms)] + b
    requires PostCount(a) == pa && PostCount(b) == pb
    ensures PostCount(t) == pa + pb
  {
    WaitBetween(a, ms, b);
  }

  lemma DelaysCons(delay: nat -> nat, from: nat, n: nat)
    requires n >= 1
    ensures Delays(delay, from, n) == [delay(from)] + Delays(delay, from + 1, n - 1)
  {
  }

  /** An attempt that throws with budget left is followed by the wait and the rest of the loop. */
  lemma GlueThrow<R>(attempt: nat -> Step<R>, retries: int, delay: nat -> nat, count: nat, calls: nat, prefix: seq<Event>, done: nat,
                     s: Step<R>, next: nat)
    requires s == attempt(calls) && next == calls + PostCount(s.trace)
    requires count + 1 <= retries && s.verdict.Throw?
    ensures Glue(prefix, done, RunFrom(attempt, retries, delay, count, calls))
         == Glue(prefix + s.trace + [Wait(delay(count + 1))], done + 1, RunFrom(attempt, retries, delay, count + 1, next))
  {
    var rest := RunFrom(attempt, retries, delay, count + 1, next);
    assert prefix + (s.trace + [Wait(delay(count + 1))] + rest.trace)
        == prefix + s.trace + [Wait(delay(count + 1))] + rest.trace;
  }

  /** An attempt that returns ends the loop with its value. */
  lemma GlueReturn<R>(attempt: nat -> Step<R>, retries: int, delay: nat -> nat, count: nat, calls: nat, prefix: seq<Event>, done: nat)
    requires count <= retries && attempt(calls).verdict.Return?
    ensures Glue(prefix, done, RunFrom(attempt, retries, delay, count, calls))
         == Run(prefix + attempt(calls).trace, done + 1, Returned(attempt(calls).verdict.value))
  {
  }

  /** An attempt that throws with no budget left ends the loop with its error. */
  lemma GlueLast<R>(attempt: nat -> Step<R>, retries: int, delay: nat -> nat, count: nat, calls: nat, prefix: seq<Event>, done: nat)
    requires count <= retries < count + 1 && attempt(calls).verdict.Throw?
    ensures Glue(prefix, done, RunFrom(attempt, retries, delay, count, calls))
         == Run(prefix + attempt(calls).trace, done + 1, GaveUp(Some(attempt(calls).verdict.message)))
  {
  }

  /** The last two attempts both throw: both run, a wait apart, and the second error is the last. */
  lemma ThrowThenThrow<R>(attempt: nat -> Step<R>, retries: int, delay: nat -> nat, count: nat, calls: nat)
    requires count + 1 == retries && attempt(calls).verdict.Throw?
    requires attempt(calls + PostCount(attempt(calls).trace)).verdict.Throw?
    ensures var second := attempt(calls + PostCount(attempt(calls).trace));
      RunFrom(attempt, retries, delay, count, calls)
        == Run(attempt(calls).trace + [Wait(delay(count + 1))] + second.trace, 2, GaveUp(Some(second.verdict.message)))
  {
  }

  /** Past the budget nothing more happens. */
  lemma GlueSpent<R>(attempt: nat -> Step<R>, retries: int, delay: nat -> nat, count: nat, calls: nat, prefix: seq<Event>, done: nat)
    requires retries < count
    ensures Glue(prefix, done, RunFrom(attempt, retries, delay, count, calls)) == Run(prefix, done, GaveUp(None))
  {
    assert prefix + [] == prefix;
  }

  /**
   * The loop itself, as the four operations write it: attempt, return on success,
   * otherwise record the error, count up, give up once past `retries`, else wait.
   */
  method Loop<R>(attempt: nat -> Step<R>, retries: int, delay: nat -> nat, calls0: nat) returns (end: End<R>, trace: seq<Event>)
    ensures var run := RunFrom(attempt, retries, delay, 0, calls0); end == run.end && trace == run.trace
  {
    ghost var whole := RunFrom(attempt, retries, delay, 0, calls0);
    var lastError: Option<string> := None;
    var retryCount: nat := 0;
    var calls: nat := calls0;
    trace := [];
    while retryCount <= retries
      invariant whole == Glue(trace, retryCount, RunFrom(attempt, retries, delay, retryCount, calls))
      decreases retries - retryCount
    {
      var step := attempt(calls);
      match step.verdict {
        case Return(v) =>
          GlueReturn(attempt, retries, delay, retryCount, calls, trace, retryCount);
          trace := trace + step.trace;
          return Returned(v), trace;
        case Throw(msg) =>
          lastError := Some(msg);
          if retryCount + 1 > retries {
            GlueLast(attempt, retries, delay, retryCount, calls, trace, retryCount);
            trace := trace + step.trace;
            return GaveUp(lastError), trace;
          }
          GlueThrow(attempt, retries, delay, retryCount, calls, trace, retryCount, step, calls + PostCount(step.trace));
          retryCount := retryCount + 1;
          trace := trace + step.trace + [Wait(delay(retryCount))];
          calls := calls + PostCount(step.trace);
      }
    }
    GlueSpent(attempt, retries, delay, retryCount, calls, trace, retryCount);
    end := GaveUp(None);
  }

  /** An attempt that returns, or throws with no budget left, is the whole loop. */
  lemma RunOnce<R>(attempt: nat -> Step<R>, retries: int, delay: nat -> nat, count: nat, calls: nat)
    requires count <= retries && !(attempt(calls).verdict.Throw? && count + 1 <= retries)
    ensures var r := RunFrom(attempt, retries, delay, count, calls); r.trace == attempt(calls).trace && r.attempts == 1
  {
  }

  /** The waits of a loop whose attempts never wait themselves are exactly the delays, one between each two attempts. */
  lemma {:induction false} RunWaits<R>(attempt: nat -> Step<R>, retries: int, delay: nat -> nat, count: nat, calls: nat)
    requires forall k :: WaitTimes(attempt(k).trace) == []
    ensures var r := RunFrom(attempt, retries, delay, count, calls);
      WaitTimes(r.trace) == Delays(delay, count + 1, if r.attempts == 0 then 0 else r.attempts - 1)
    decreases Budget(retries, count)
  {
    if retries < count {
      assert RunFrom(attempt, retries, delay, count, calls) == Run([], 0, GaveUp(None));
    } else {
      var s := attempt(calls);
      assert WaitTimes(s.trace) == [];
      if s.verdict.Throw? && count + 1 <= retries {
        var next := calls + PostCount(s.trace);
        RunWaits(attempt, retries, delay, count + 1, next);
        WaitsThrow(attempt, retries, delay, count, calls, next);
      } else {
        RunOnce(attempt, retries, delay, count, calls);
      }
    }
  }

  /** The inductive step of `RunWaits`: a throw with budget left, whose rest of the loop has the delays as its waits. */
  lemma WaitsThrow<R>(attempt: nat -> Step<R>, retries: int, delay: nat -> nat, count: nat, calls: nat, next: nat)
    requires count + 1 <= retries && attempt(calls).verdict.Throw? && WaitTimes(attempt(calls).trace) == []
    requires next == calls + PostCount(attempt(calls).trace)
    requires var rest := RunFrom(attempt, retries, delay, count + 1, next);
      WaitTimes(rest.trace) == Delays(delay, count + 1 + 1, rest.attempts - 1)
    ensures var r := RunFrom(attempt, retries, delay, count, calls);
      WaitTimes(r.trace) == Delays(delay, count + 1, r.attempts - 1)
  {
    var s := attempt(calls);
    var rest := RunFrom(attempt, retries, delay, count + 1, next);
    var r := RunFrom(attempt, retries, delay, count, calls);
    assert r.trace == s.trace + [Wait(delay(count + 1))] + rest.trace && r.attempts - 1 == rest.attempts;
    WaitsGlue(r.trace, s.trace, rest.trace, delay, count + 1, r.attempts - 1);
  }

  /** If every attempt sends at most `b` POSTs, the loop sends at most `b` per attempt. */
  lemma {:induction false} RunPosts<R>(attempt: nat -> Step<R>, retries: int, delay: nat -> nat, count: nat, calls: nat, b: nat)
    requires forall k :: PostCount(attempt(k).trace) <= b
    ensures var r := RunFrom(attempt, retries, delay, count, calls); PostCount(r.trace) <= b * r.attempts
    decreases Budget(retries, count)
  {
    if retries < count {
      assert RunFrom(attempt, retries, delay, count, calls) == Run([], 0, GaveUp(None));
    } else {
      var s := attempt(calls);
      assert PostCount(s.trace) <= b;
      if s.verdict.Throw? && count + 1 <= retries {
        var next := calls + PostCount(s.trace);
        RunPosts(attempt, retries, delay, count + 1, next, b);
        PostsThrow(attempt, retries, delay, count, calls, next, b);
      } else {
        RunOnce(attempt, retries, delay, count, calls);
      }
    }
  }

  /** The inductive step of `RunPosts`: the attempt's POSTs plus those of the rest of the loop. */
  lemma PostsThrow<R>(attempt: nat -> Step<R>, retries: int, delay: nat -> nat, count: nat, calls: nat, next: nat, b: nat)
    requires count + 1 <= retries && attempt(calls).verdict.Throw? && PostCount(attempt(calls).trace) <= b
    requires next == calls + PostCount(attempt(calls).trace)
    requires var rest := RunFrom(attempt, retries, delay, count + 1, next); PostCount(rest.trace) <= b * rest.attempts
    ensures var r := RunFrom(attempt, retries, delay, count, calls); PostCount(r.trace) <= b * r.attempts
  {
    var s := attempt(calls);
    var rest := RunFrom(attempt, retries, delay, count + 1, next);
    var r := RunFrom(attempt, retries, delay, count, calls);
    assert r.trace == s.trace + [Wait(delay(count + 1))] + rest.trace && r.attempts == 1 + rest.attempts;
    PostsBetween(r.trace, s.trace, delay(count + 1), rest.trace, b, rest.attempts, r.attempts);
  }

  /** If every attempt sends exactly one POST, the loop sends one per attempt. */
  lemma {:induction false} RunPostsExact<R>(attempt: nat -> Step<R>, retries: int, delay: nat -> nat, count: nat, calls: nat)
    requires forall k :: PostCount(attempt(k).trace) == 1
    ensures var r := RunFrom(attempt, retries, delay, count, calls); PostCount(r.trace) == r.attempts
    decreases Budget(retries, count)
  {
    if retries < count {
      assert RunFrom(attempt, retries, delay, count, calls) == Run([], 0, GaveUp(None));
    } else {
      var s := attempt(calls);
      assert PostCount(s.trace) == 1;
      if s.verdict.Throw? && count + 1 <= retries {
        var next := calls + PostCount(s.trace);
        RunPostsExact(attempt, retries, delay, count + 1, next);
        PostsThrowExact(attempt, retries, delay, count, calls, next);
      } else {
        RunOnce(attempt, retries, delay, count, calls);
      }
    }
  }

  /** The inductive step of `RunPostsExact`. */
  lemma PostsThrowExact<R>(attempt: nat -> Step<R>, retries: int, delay: nat -> nat, count: nat, calls: nat, next: nat)
    requires count + 1 <= retries && attempt(calls).verdict.Throw? && PostCount(attempt(calls).trace) == 1
    requires next == calls + PostCount(attempt(calls).trace)
    requires var rest := RunFrom(attempt, retries, delay, count + 1, next); PostCount(rest.trace) == rest.attempts
    ensures var r := RunFrom(attempt, retries, delay, count, calls); PostCount(r.trace) == r.attempts
  {
    var s := attempt(calls);
    var rest := RunFrom(attempt, retries, delay, count + 1, next);
    var r := RunFrom(attempt, retries, delay, count, calls);
    assert r.trace == s.trace + [Wait(delay(count + 1))] + rest.trace && r.attempts == 1 + rest.attempts;
    PostsGlue(r.trace, s.trace, delay(count + 1), rest.trace, 1, rest.attempts);
  }

  /** A loop whose every attempt throws runs the whole budget and reports the last attempt's error. */
  lemma {:induction false} RunAllThrow<R>(attempt: nat -> Step<R>, retries: int, delay: nat -> nat, count: nat, calls: nat)
    requires count <= retries
    requires forall k :: attempt(k).verdict.Throw?
    ensures var r := RunFrom(attempt, retries, delay, count, calls);
      && r.attempts == retries - count + 1 && r.end.GaveUp? && r.end.lastError.Some?
      && exists k :: k >= calls && r.end.lastError == Some(attempt(k).verdict.message)
    decreases Budget(retries, count)
  {
    var s := attempt(calls);
    assert s.verdict.Throw?;
    if retries >= count + 1 {
      RunAllThrow(attempt, retries, delay, count + 1, calls + PostCount(s.trace));
    } else {
      assert RunFrom(attempt, retries, delay, count, calls).end.lastError == Some(attempt(calls).verdict.message);
    }
  }

  /** A loop that ended with a value got it from one of its attempts. */
  lemma {:induction false} RunReturnsAttemptValue<R>(attempt: nat -> Step<R>, retries: int, delay: nat -> nat, count: nat, calls: nat)
    ensures var r := RunFrom(attempt, retries, delay, count, calls);
      r.end.Returned? ==> exists k :: attempt(k).verdict == Return(r.end.value)
    decreases Budget(retries, count)
  {
    if count <= retries {
      var s := attempt(calls);
      if s.verdict.Throw? && count + 1 <= retries {
        RunReturnsAttemptValue(attempt, retries, delay, count + 1, calls + PostCount(s.trace));
      }
    }
  }
}
