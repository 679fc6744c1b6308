/**
  The redial loop of `reconnect` in rpc/jsonrpc/client/ws_client.go.

  Each loop iteration draws a jitter, waits the backoff (or sees the context
  cancelled), then dials once. The attempt counter starts at 0 and grows after
  every failed dial; the loop gives up once it exceeds the configured maximum,
  so at most `maxAttempts + 1` dials are made. Timers and the random source are
  inputs: an iteration is an `Attempt` carrying the jitter it drew and what happened.
 */
module Reconnect {
  import opened Backoff

  /** How one iteration ends: cancellation during the wait, or the dial's result. */
  datatype AttemptOutcome = ContextDone | DialFailed | DialSucceeded

  datatype Attempt = Attempt(jitter: Jitter, outcome: AttemptOutcome)

  /**
    Where the loop stands. `Redialling(k)` means the next iteration waits the
    backoff for attempt `k`; the other three are the function's return paths
    (nil, nil and an error respectively).
   */
  datatype Verdict = Redialling(attempt: nat) | Reconnected | Cancelled | GaveUp

  /** `reconnect` returns a non-nil error only when it gives up. */
  predicate ReturnsError(v: Verdict)
  {
    v == GaveUp
  }

  /** One loop iteration at attempt `attempt`. */
  function AttemptStep(maxAttempts: nat, attempt: nat, outcome: AttemptOutcome): (v: Verdict)
    requires attempt <= maxAttempts
    ensures v.Redialling? <==> outcome == DialFailed && attempt < maxAttempts
    ensures v.Redialling? ==> v.attempt == attempt + 1 <= maxAttempts
    ensures v == GaveUp <==> outcome == DialFailed && attempt == maxAttempts
    ensures v == Reconnected <==> outcome == DialSucceeded
    ensures v == Cancelled <==> outcome == ContextDone
  {
    match outcome
    case ContextDone => Cancelled
    case DialSucceeded => Reconnected
    case DialFailed => if attempt + 1 > maxAttempts then GaveUp else Redialling(attempt + 1)
  }

  /**
    The result of running the loop over a sequence of iterations: the verdict,
    the number of dials made, and the number of iterations consumed.
   */
  datatype Run = Run(verdict: Verdict, dials: nat, consumed: nat)

  predicate AllFailed(xs: seq<Attempt>, n: nat)
    requires n <= |xs|
  {
    forall i :: 0 <= i < n ==> xs[i].outcome == DialFailed
  }

  /** The loop started at attempt `attempt`, fed the iterations `xs`. */
  function RunFrom(maxAttempts: nat, attempt: nat, xs: seq<Attempt>): (r: Run)
    requires attempt <= maxAttempts
    ensures r.dials <= r.consumed <= |xs|
    decreases |xs|
  {
    if |xs| == 0 then
      Run(Redialling(attempt), 0, 0)
    else
      match AttemptStep(maxAttempts, attempt, xs[0].outcome)
      case Redialling(next) =>
        var rest := RunFrom(maxAttempts, next, xs[1..]);
        Run(rest.verdict, rest.dials + 1, rest.consumed + 1)
      case Cancelled => Run(Cancelled, 0, 1)
      case v => Run(v, 1, 1)
  }

  /**
    What a run of the loop looks like: at most `maxAttempts + 1 - attempt`
    dials; every iteration before the last one consumed was a failed dial; and
    the last one decides the verdict.
   */
  lemma {:induction false} RunFromShape(maxAttempts: nat, attempt: nat, xs: seq<Attempt>)
    requires attempt <= maxAttempts
    ensures var r := RunFrom(maxAttempts, attempt, xs);
            && r.dials <= maxAttempts + 1 - attempt
            && AllFailed(xs, if r.consumed == 0 then 0 else r.consumed - 1)
            && (r.verdict.Redialling? ==>
                  && r.dials == r.consumed == |xs|
                  && r.verdict.attempt == attempt + |xs| <= maxAttempts
                  && AllFailed(xs, |xs|))
            && (r.verdict == GaveUp ==>
                  && r.dials == r.consumed == maxAttempts + 1 - attempt
                  && xs[r.dials - 1].outcome == DialFailed)
            && (r.verdict == Reconnected ==>
                  && r.dials == r.consumed >= 1
                  && xs[r.dials - 1].outcome == DialSucceeded)
            && (r.verdict == Cancelled ==>
                  && r.dials + 1 == r.consumed
                  && xs[r.dials].outcome == ContextDone)
    decreases |xs|
  {
    if |xs| > 0 && xs[0].outcome == DialFailed && attempt < maxAttempts {
      RunFromShape(maxAttempts, attempt + 1, xs[1..]);
      var rest := RunFrom(maxAttempts, attempt + 1, xs[1..]);
      forall i | 0 <= i < rest.consumed
        ensures xs[i + 1] == xs[1..][i]
      {
      }
    }
  }

  /** The backoffs scheduled by the first `n` iterations of a loop started at `attempt`. */
  function Schedule(attempt: nat, xs: seq<Attempt>, n: nat): (waits: seq<int>)
    requires n <= |xs|
    ensures |waits| == n
  {
    seq(n, i requires 0 <= i < n => BackoffNanos(attempt + i, xs[i].jitter))
  }

  /**
    The i-th scheduled wait uses exponent `attempt + i`: it lies in
    [2^(attempt+i) s, 2^(attempt+i) s + 1 s). Up to exponent 33 it is exactly the
    int64 duration the source computes; at exponent 34 the source's duration
    has wrapped negative while this one has not.
   */
  lemma ScheduleBounds(attempt: nat, xs: seq<Attempt>, n: nat, i: nat)
    requires n <= |xs| && i < n
    ensures Pow2(attempt + i) * Second <= Schedule(attempt, xs, n)[i] < Pow2(attempt + i) * Second + Second
    ensures attempt + i <= 33 ==> Schedule(attempt, xs, n)[i] == BackoffAsWritten(attempt + i, xs[i].jitter)
    ensures attempt + i == 34 ==> BackoffAsWritten(attempt + i, xs[i].jitter) < 0 < Schedule(attempt, xs, n)[i]
  {
    if attempt + i <= 33 {
      AsWrittenAgreesUpTo33(attempt + i, xs[i].jitter);
    } else if attempt + i == 34 {
      AsWrittenNegativeAt34(xs[i].jitter);
    }
  }

  lemma ScheduleExtend(attempt: nat, xs: seq<Attempt>, n: nat)
    requires n < |xs|
    ensures Schedule(attempt, xs, n + 1) == Schedule(attempt, xs, n) + [BackoffNanos(attempt + n, xs[n].jitter)]
  {
    var longer := Schedule(attempt, xs, n + 1);
    var shorter := Schedule(attempt, xs, n) + [BackoffNanos(attempt + n, xs[n].jitter)];
    forall i | 0 <= i < n + 1 ensures longer[i] == shorter[i] {
    }
  }

  /** `reconnect` as called by the coordinator: it always starts at attempt 0. */
  function RunLoop(maxAttempts: nat, xs: seq<Attempt>): Run
  {
    RunFrom(maxAttempts, 0, xs)
  }

  /** The first successful dial ends the loop at once, provided it comes before the give-up bound. */
  lemma {:induction false} FirstSuccessReconnects(maxAttempts: nat, attempt: nat, xs: seq<Attempt>, k: nat)
    requires attempt <= maxAttempts
    requires k < |xs| && attempt + k <= maxAttempts
    requires AllFailed(xs, k) && xs[k].outcome == DialSucceeded
    ensures RunFrom(maxAttempts, attempt, xs).verdict == Reconnected
    ensures RunFrom(maxAttempts, attempt, xs).dials == k + 1
    decreases k
  {
    if k > 0 {
      assert xs[0].outcome == DialFailed;
      assert AllFailed(xs[1..], k - 1) by {
        forall i | 0 <= i < k - 1 ensures xs[1..][i].outcome == DialFailed {
          assert xs[1..][i] == xs[i + 1];
        }
      }
      FirstSuccessReconnects(maxAttempts, attempt + 1, xs[1..], k - 1);
      var rest := RunFrom(maxAttempts, attempt + 1, xs[1..]);
      assert RunFrom(maxAttempts, attempt, xs).verdict == rest.verdict;
    }
  }

  /** `maxAttempts + 1` failed dials in a row make the loop give up with an error. */
  lemma {:induction false} ExhaustionGivesUp(maxAttempts: nat, attempt: nat, xs: seq<Attempt>)
    requires attempt <= maxAttempts
    requires maxAttempts + 1 - attempt <= |xs|
    requires AllFailed(xs, maxAttempts + 1 - attempt)
    ensures RunFrom(maxAttempts, attempt, xs).verdict == GaveUp
    ensures RunFrom(maxAttempts, attempt, xs).dials == maxAttempts + 1 - attempt
    decreases maxAttempts - attempt
  {
    assert xs[0].outcome == DialFailed;
    if attempt < maxAttempts {
      ExhaustionGivesUp(maxAttempts, attempt + 1, xs[1..]);
    }
  }

  /** Running the loop from `attempt` on, with `done` iterations already behind it. */
  function Shifted(r: Run, done: nat): Run
  {
    Run(r.verdict, r.dials + done, r.consumed + done)
  }

  /** How the loop's first iteration decides the whole run. */
  lemma RunFromFirst(maxAttempts: nat, attempt: nat, xs: seq<Attempt>)
    requires attempt <= maxAttempts && |xs| > 0
    ensures xs[0].outcome == ContextDone ==> RunFrom(maxAttempts, attempt, xs) == Run(Cancelled, 0, 1)
    ensures xs[0].outcome == DialSucceeded ==> RunFrom(maxAttempts, attempt, xs) == Run(Reconnected, 1, 1)
    ensures xs[0].outcome == DialFailed && attempt == maxAttempts ==>
              RunFrom(maxAttempts, attempt, xs) == Run(GaveUp, 1, 1)
    ensures xs[0].outcome == DialFailed && attempt < maxAttempts ==>
              RunFrom(maxAttempts, attempt, xs) == Shifted(RunFrom(maxAttempts, attempt + 1, xs[1..]), 1)
  {
  }

  /** How iteration `attempt` of the loop, reached after `attempt` failed dials, decides the whole run. */
  lemma LoopIteration(maxAttempts: nat, xs: seq<Attempt>, attempt: nat)
    requires attempt <= maxAttempts && attempt < |xs|
    requires RunLoop(maxAttempts, xs) == Shifted(RunFrom(maxAttempts, attempt, xs[attempt..]), attempt)
    ensures xs[attempt].outcome == ContextDone ==> RunLoop(maxAttempts, xs) == Run(Cancelled, attempt, attempt + 1)
    ensures xs[attempt].outcome == DialSucceeded ==>
              RunLoop(maxAttempts, xs) == Run(Reconnected, attempt + 1, attempt + 1)
    ensures xs[attempt].outcome == DialFailed && attempt == maxAttempts ==>
              RunLoop(maxAttempts, xs) == Run(GaveUp, attempt + 1, attempt + 1)
    ensures xs[attempt].outcome == DialFailed && attempt < maxAttempts ==>
              RunLoop(maxAttempts, xs) == Shifted(RunFrom(maxAttempts, attempt + 1, xs[attempt + 1..]), attempt + 1)
  {
    assert xs[attempt..][0] == xs[attempt];
    assert xs[attempt..][1..] == xs[attempt + 1..];
    RunFromFirst(maxAttempts, attempt, xs[attempt..]);
  }

  /**
    The loop as the source writes it: the reconnecting flag is raised on entry
    and lowered on every return path.
   */
  method ReconnectLoop(maxAttempts: nat, xs: seq<Attempt>)
    returns (verdict: Verdict, dials: nat, waits: seq<int>, reconnecting: bool)
    ensures verdict == RunLoop(maxAttempts, xs).verdict
    ensures dials == RunLoop(maxAttempts, xs).dials <= maxAttempts + 1
    ensures waits == Schedule(0, xs, RunLoop(maxAttempts, xs).consumed)
    ensures reconnecting <==> verdict.Redialling?
  {
    reconnecting := true;
    var attempt: nat := 0;
    dials := 0;
    waits := [];
    while attempt < |xs|
      invariant attempt <= maxAttempts && attempt <= |xs|
      invariant dials == attempt
      invariant RunLoop(maxAttempts, xs) == Shifted(RunFrom(maxAttempts, attempt, xs[attempt..]), attempt)
      invariant waits == Schedule(0, xs, attempt)
      decreases |xs| - attempt
    {
      var x := xs[attempt];
      LoopIteration(maxAttempts, xs, attempt);
      ScheduleExtend(0, xs, attempt);
      waits := waits + [BackoffNanos(attempt, x.jitter)];
      ghost var taken := Schedule(0, xs, attempt + 1);
      assert waits == taken;
      if x.outcome == ContextDone {
        assert RunLoop(maxAttempts, xs).consumed == attempt + 1;
        verdict := Cancelled;
        reconnecting := false;
        return;
      }
      dials := dials + 1;
      if x.outcome == DialSucceeded {
        assert RunLoop(maxAttempts, xs).consumed == attempt + 1;
        verdict := Reconnected;
        reconnecting := false;
        return;
      }
      attempt := attempt + 1;
      if attempt > maxAttempts {
        assert RunLoop(maxAttempts, xs).consumed == attempt;
        verdict := GaveUp;
        reconnecting := false;
        return;
      }
    }
    assert xs[attempt..] == [];
    verdict := Redialling(attempt);
  }

}
