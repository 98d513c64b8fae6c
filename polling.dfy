/**
 * The status-polling loop shared by the two text/image-to-video flows and the
 * command-line demo: up to `max` queries; after each one a decision either ends
 * the loop with a response or lets it wait `interval` milliseconds and query again.
 */
module Polling {
  import opened Wrappers
  import opened Wire

  /** The loop: its events, how many queries it made, and the response it stopped with (None: it ran out of queries). */
  datatype Poll<R> = Poll(trace: seq<Event>, queries: nat, stopped: Option<R>)

  /** The loop with `remaining` queries left; `query(k)` is the query made when `k` POSTs came before it. */
  function PollFrom<Q, R>(query: nat -> Traced<Q>, decide: Q -> Option<R>, interval: nat, remaining: nat, calls: nat): (r: Poll<R>)
    ensures r.queries <= remaining
    ensures r.stopped.None? ==> r.queries == remaining
    ensures remaining > 0 <==> r.queries >= 1
    decreases remaining
  {
    if remaining == 0 then Poll([], 0, None)
    else
      var o := query(calls);
      match decide(o.value)
      case Some(v) => Poll(o.trace, 1, Some(v))
      case None =>
        var rest := PollFrom(query, decide, interval, remaining - 1, calls + PostCount(o.trace));
        Poll(o.trace + [Wait(interval)] + rest.trace, 1 + rest.queries, rest.stopped)
  }

  /** `p` continued after `prefix`, `done` queries having run already. */
  function Continue<R>(prefix: seq<Event>, done: nat, p: Poll<R>): (g: Poll<R>)
    ensures g.trace == prefix + p.trace && g.stopped == p.stopped
    ensures g.queries == done + p.queries
  {
    Poll(prefix + p.trace, done + p.queries, p.stopped)
  }

  /** A query the decision lets pass is followed by one wait and the rest of the loop. */
  lemma ContinuePass<Q, R>(query: nat -> Traced<Q>, decide: Q -> Option<R>, interval: nat, remaining: nat, calls: nat, prefix: seq<Event>, done: nat,
                           o: Traced<Q>, next: nat)
    requires o == query(calls) && next == calls + PostCount(o.trace)
    requires remaining > 0 && decide(o.value).None?
    ensures Continue(prefix, done, PollFrom(query, decide, interval, remaining, calls))
         == Continue(prefix + o.trace + [Wait(interval)], done + 1, PollFrom(query, decide, interval, remaining - 1, next))
  {
    var rest := PollFrom(query, decide, interval, remaining - 1, next);
    assert prefix + (o.trace + [Wait(interval)] + rest.trace) == prefix + o.trace + [Wait(interval)] + rest.trace;
  }

  /**
   * The loop as the operations write it: `for (i = 0; i < max; i++)`, query,
   * return if the decision says so, otherwise wait `interval` and go on.
   */
  method Loop<Q, R>(query: nat -> Traced<Q>, decide: Q -> Option<R>, interval: nat, max: nat, calls0: nat)
    returns (stopped: Option<R>, trace: seq<Event>)
    ensures var poll := PollFrom(query, decide, interval, max, calls0); stopped == poll.stopped && trace == poll.trace
  {
    ghost var whole := PollFrom(query, decide, interval, max, calls0);
    var calls: nat := calls0;
    trace := [];
    for i := 0 to max
      invariant whole == Continue(trace, i, PollFrom(query, decide, interval, max - i, calls))
    {
      var result := query(calls);
      var verdict := decide(result.value);
      if verdict.Some? {
        trace := trace + result.trace;
        return verdict, trace;
      }
      ContinuePass(query, decide, interval, max - i, calls, trace, i, result, calls + PostCount(result.trace));
      trace := trace + result.trace + [Wait(interval)];
      calls := calls + PostCount(result.trace);
    }
    assert trace + [] == trace;
    stopped := None;
  }

  /** If no answer ever stops the loop, it makes every one of its queries and stops with nothing. */
  lemma {:induction false} PollNeverStops<Q, R>(query: nat -> Traced<Q>, decide: Q -> Option<R>, interval: nat, remaining: nat, calls: nat)
    requires forall k :: decide(query(k).value).None?
    ensures var r := PollFrom(query, decide, interval, remaining, calls);
      r.queries == remaining && r.stopped.None?
    decreases remaining
  {
    if remaining > 0 {
      var o := query(calls);
      assert decide(o.value).None?;
      PollNeverStops(query, decide, interval, remaining - 1, calls + PostCount(o.trace));
    }
  }

  /** A loop whose queries each send at most `b` POSTs sends at most `b` per query. */
  lemma {:induction false} PollPosts<Q, R>(query: nat -> Traced<Q>, decide: Q -> Option<R>, interval: nat, remaining: nat, calls: nat, b: nat)
    requires forall k :: PostCount(query(k).trace) <= b
    ensures var r := PollFrom(query, decide, interval, remaining, calls); PostCount(r.trace) <= b * r.queries
    decreases remaining
  {
    if remaining > 0 {
      var o := query(calls);
      assert PostCount(o.trace) <= b;
      if decide(o.value).None? {
        var next := calls + PostCount(o.trace);
        PollPosts(query, decide, interval, remaining - 1, next, b);
        PostsPass(query, decide, interval, remaining, calls, o, next, b);
      }
    }
  }

  /** The inductive step of `PollPosts`: a query let pass, its wait, and the rest of the loop. */
  lemma PostsPass<Q, R>(query: nat -> Traced<Q>, decide: Q -> Option<R>, interval: nat, remaining: nat, calls: nat,
                        o: Traced<Q>, next: nat, b: nat)
    requires o == query(calls) && next == calls + PostCount(o.trace)
    requires remaining > 0 && decide(o.value).None? && PostCount(o.trace) <= b
    requires var rest := PollFrom(query, decide, interval, remaining - 1, next); PostCount(rest.trace) <= b * rest.queries
    ensures var r := PollFrom(query, decide, interval, remaining, calls); PostCount(r.trace) <= b * r.queries
  {
    var rest := PollFrom(query, decide, interval, remaining - 1, next);
    var r := PollFrom(query, decide, interval, remaining, calls);
    assert r.trace == o.trace + [Wait(interval)] + rest.trace && r.queries == 1 + rest.queries;
    PostsBetween(r.trace, o.trace, interval, rest.trace, b, rest.queries, r.queries);
  }

  /** A loop that stopped did so with what the decision made of some query's answer. */
  lemma {:induction false} PollStopsByDecision<Q, R>(query: nat -> Traced<Q>, decide: Q -> Option<R>, interval: nat, remaining: nat, calls: nat)
    ensures var r := PollFrom(query, decide, interval, remaining, calls);
      r.stopped.Some? ==> exists k :: decide(query(k).value) == r.stopped
    decreases remaining
  {
    if remaining > 0 {
      var o := query(calls);
      if decide(o.value).None? {
        PollStopsByDecision(query, decide, interval, remaining - 1, calls + PostCount(o.trace));
      }
    }
  }
}
