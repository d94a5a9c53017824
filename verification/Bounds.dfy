/** How often and how long one `do` call can keep trying. */
module Bounds {
  import opened Wrappers
  import opened Backoff
  import opened Protocol
  import ExactlyOnce

  const LONGEST_BACKOFF := MAX_WAIT + BASE
  const MOST_BACKOFF_REQUESTS := 14

  /** No attempt gets a Retry-After that the client can use. */
  ghost predicate NoUsableRetryAfter(sched: Schedule) {
    forall i: nat :: sched(i).verdict.Throttle? ==> sched(i).verdict.retryAfter.None?
  }

  /** No answer in the server's key cache carries a usable Retry-After either. */
  predicate PlainCache(s: Server) {
    forall k :: k in s.cache ==> s.cache[k].answer.retryAfter.None?
  }

  lemma {:induction false} SendsOncePerAttempt(tag: Doc -> string, req: Request, sched: Schedule, c: Call)
    requires c.attempt <= MAX_ATTEMPTS && |c.sent| == c.attempt
    ensures |Run(tag, req, sched, c).0.sent| <= MAX_ATTEMPTS + 1
    decreases MAX_ATTEMPTS - c.attempt
  {
    RunUnfolds(tag, req, sched, c);
    var p := Attempt(tag, req, sched(c.attempt), c);
    if p.Again? {
      SendsOncePerAttempt(tag, req, sched, p.call);
    }
  }

  /** For any server and any Retry-After, a call sends at most 51 requests. */
  lemma AtMostFiftyOne(tag: Doc -> string, req: Request, sched: Schedule, s: Server, now: int)
    ensures |Run(tag, req, sched, Fresh(s, now)).0.sent| <= 51
  {
    SendsOncePerAttempt(tag, req, sched, Fresh(s, now));
  }

  /** The loop head after `attempt` failures, the first of which the client saw at `first`. */
  predicate Backing(first: int, c: Call) {
    && |c.sent| == c.attempt
    && PlainCache(c.server)
    && (c.attempt > 0 ==>
        && c.deadline == Some(first + RETRY_BUDGET)
        && first + LeastDelay(c.attempt) <= c.now < first + RETRY_BUDGET + LONGEST_BACKOFF
        && LeastDelay(c.attempt - 1) < RETRY_BUDGET)
  }

  predicate Bounded(first: int, sent: seq<int>) {
    && |sent| <= MOST_BACKOFF_REQUESTS
    && (|sent| > 1 ==> sent[|sent| - 1] < first + RETRY_BUDGET + LONGEST_BACKOFF)
  }

  lemma {:induction false} RivalsKeepCache(s: Server, rivals: seq<Option<Doc>>)
    ensures RivalCommits(s, rivals).cache == s.cache
    decreases |rivals|
  {
    ExactlyOnce.RivalEffect(s, rivals);
  }

  predicate PlainReply(reply: Reply) {
    reply.Full? ==> reply.answer.retryAfter.None?
  }

  lemma TransmitIsPlain(tag: Doc -> string, req: Request, t: Turn, s: Server, now: int)
    requires PlainCache(s)
    requires t.verdict.Throttle? ==> t.verdict.retryAfter.None?
    ensures var (s', reply) := Transmit(tag, s, req, t, now);
            PlainCache(s') && PlainReply(reply)
  {
    RivalsKeepCache(s, t.rivals);
  }

  lemma LeastDelayWithinBudget(attempts: nat)
    requires LeastDelay(attempts) < RETRY_BUDGET
    ensures attempts <= 12
  {
    if attempts > 12 {
      LeastDelayClosed(attempts);
    }
  }

  /** The client half of an attempt whose reply came at `c.now`. */
  lemma BackingResolve(req: Request, reply: Reply, t: Turn, first: int, c: Call)
    requires t.jitter < BASE && PlainReply(reply)
    requires |c.sent| == c.attempt + 1 && PlainCache(c.server)
    requires first + LeastDelay(c.attempt) <= c.now
    requires if c.deadline.None? then c.attempt == 0 && first == c.now else c.deadline == Some(first + RETRY_BUDGET)
    ensures var p := Resolve(req, reply, t, c);
            && p.call.sent == c.sent
            && (p.Again? ==> p.call.attempt == c.attempt + 1 && Backing(first, p.call))
  {
    BackoffBounds(c.attempt, t.jitter);
  }

  lemma BackingHalves(tag: Doc -> string, req: Request, t: Turn, c: Call) returns (reply: Reply, c1: Call)
    requires PlainCache(c.server) && (t.verdict.Throttle? ==> t.verdict.retryAfter.None?)
    ensures PlainCache(c1.server) && PlainReply(reply)
    ensures c1 == c.(now := c.now + t.reply, sent := c.sent + [c.now], server := c1.server)
    ensures Attempt(tag, req, t, c) == Resolve(req, reply, t, c1)
  {
    TransmitIsPlain(tag, req, t, c.server, c.now);
    var sent := Transmit(tag, c.server, req, t, c.now);
    reply, c1 := sent.1, c.(now := c.now + t.reply, sent := c.sent + [c.now], server := sent.0);
  }

  lemma BackingAttempt(tag: Doc -> string, req: Request, t: Turn, first: int, c: Call)
    requires WellFormed(t) && Backing(first, c)
    requires t.verdict.Throttle? ==> t.verdict.retryAfter.None?
    requires c.attempt == 0 ==> c.deadline.None? && first == c.now + t.reply
    ensures var p := Attempt(tag, req, t, c);
            && p.call.sent == c.sent + [c.now]
            && (p.Again? ==> p.call.attempt == c.attempt + 1 && Backing(first, p.call))
  {
    var reply, c1 := BackingHalves(tag, req, t, c);
    BackingResolve(req, reply, t, first, c1);
  }

  lemma {:induction false} BackingRun(tag: Doc -> string, req: Request, sched: Schedule, first: int, c: Call)
    requires WellFormedSchedule(sched) && NoUsableRetryAfter(sched)
    requires c.attempt <= MAX_ATTEMPTS && Backing(first, c)
    requires c.attempt == 0 ==> c.deadline.None? && first == c.now + sched(0).reply
    ensures Bounded(first, Run(tag, req, sched, c).0.sent)
    decreases MAX_ATTEMPTS - c.attempt
  {
    var t := sched(c.attempt);
    assert WellFormed(t);
    BackingAttempt(tag, req, t, first, c);
    RunUnfolds(tag, req, sched, c);
    if c.attempt > 0 {
      LeastDelayWithinBudget(c.attempt - 1);
    }
    var p := Attempt(tag, req, t, c);
    if p.Again? {
      BackingRun(tag, req, sched, first, p.call);
    }
  }

  /**
   With no usable Retry-After a call sends at most 14 requests, and the last one leaves less than
   50.2 s after the client saw the first failure.
   */
  lemma AtMostFourteen(tag: Doc -> string, req: Request, sched: Schedule, s: Server, now: int)
    requires WellFormedSchedule(sched) && NoUsableRetryAfter(sched) && PlainCache(s)
    ensures var sent := Run(tag, req, sched, Fresh(s, now)).0.sent;
            && |sent| <= 14
            && (|sent| > 1 ==> sent[|sent| - 1] < now + sched(0).reply + 50 * SECOND + 200_000_000)
  {
    BackingRun(tag, req, sched, now + sched(0).reply, Fresh(s, now));
  }

  // ------------------------------------------------------ both bounds are reached

  /** A server that locks every attempt out at once with this Retry-After. */
  function Locked(retryAfter: Option<nat>): Schedule {
    (i: nat) => Turn([], Answered, Throttle(false, retryAfter), 0, 0, 0, false)
  }

  lemma LockedAttempt(tag: Doc -> string, req: Request, retryAfter: Option<nat>, c: Call)
    ensures var t := Locked(retryAfter)(c.attempt);
            var c1 := c.(sent := c.sent + [c.now], deadline := Some(Deadline(c)));
            Attempt(tag, req, t, c) ==
              if MayRetry(c)
              then Again(c1.(attempt := c.attempt + 1, now := c.now + Elapsed(Wait(retryAfter, c.attempt, 0))))
              else Finished(c1, ApiError(423, ""))
  {
    assert RivalCommits(c.server, []) == c.server;
  }

  lemma {:induction false} LockedBackoffRun(tag: Doc -> string, req: Request, c: Call)
    requires c.attempt <= 13 && |c.sent| == c.attempt && c.now == LeastDelay(c.attempt)
    requires c.deadline == if c.attempt == 0 then None else Some(RETRY_BUDGET)
    ensures |Run(tag, req, Locked(None), c).0.sent| == 14
    decreases 13 - c.attempt
  {
    LockedAttempt(tag, req, None, c);
    RunUnfolds(tag, req, Locked(None), c);
    if c.attempt < 13 {
      EarlyWaitsFit(c.attempt);
      var p := Attempt(tag, req, Locked(None)(c.attempt), c);
      LockedBackoffRun(tag, req, p.call);
    } else {
      LeastDelayClosed(13);
    }
  }

  /** Each of the first 13 waits without jitter starts inside the retry budget. */
  lemma EarlyWaitsFit(attempt: nat)
    requires attempt < 13
    ensures LeastDelay(attempt) < RETRY_BUDGET
    ensures LeastDelay(attempt) + Wait(None, attempt, 0) == LeastDelay(attempt + 1)
  {
    LeastDelayClosed(12);
    LeastDelayGrows(attempt, 12);
  }

  lemma {:induction false} LeastDelayGrows(a: nat, b: nat)
    requires a <= b
    ensures LeastDelay(a) <= LeastDelay(b)
    decreases b - a
  {
    if a < b {
      LeastDelayGrows(a + 1, b);
    }
  }

  lemma {:induction false} LockedZeroRun(tag: Doc -> string, req: Request, c: Call)
    requires c.attempt <= MAX_ATTEMPTS && |c.sent| == c.attempt && c.now == 0
    requires c.deadline == if c.attempt == 0 then None else Some(RETRY_BUDGET)
    ensures |Run(tag, req, Locked(Some(0)), c).0.sent| == 51
    decreases MAX_ATTEMPTS - c.attempt
  {
    LockedAttempt(tag, req, Some(0), c);
    RunUnfolds(tag, req, Locked(Some(0)), c);
    if c.attempt < MAX_ATTEMPTS {
      LockedZeroRun(tag, req, Attempt(tag, req, Locked(Some(0))(c.attempt), c).call);
    }
  }

  /** Neither bound can be lowered: a server that stays locked draws 14 and 51 requests. */
  lemma BoundsAreReached(tag: Doc -> string, req: Request, s: Server)
    ensures |Run(tag, req, Locked(None), Fresh(s, 0)).0.sent| == 14
    ensures |Run(tag, req, Locked(Some(0)), Fresh(s, 0)).0.sent| == 51
  {
    LockedBackoffRun(tag, req, Fresh(s, 0));
    LockedZeroRun(tag, req, Fresh(s, 0));
  }
}
