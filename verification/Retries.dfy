/** Why one `do` call goes on and why it stops, said of whole runs and of their schedules. */
module Retries {
  import opened Wrappers
  import opened Backoff
  import opened ExactlyOnce
  import opened Protocol

  /** The cap on attempts, or the budget that starts when the client learns of the first failure. */
  predicate Exhausted(failed: int, last: Call) {
    |last.sent| == 51 || last.now >= failed + 45 * SECOND
  }

  /** A lost answer stops the call: no replay for the method, a client that gave up, or no room for more. */
  predicate NoReplay(req: Request, t: Turn, failed: int, last: Call)
    requires !t.fate.Answered?
  {
    req.verb != Post || t.fate.gaveUp || t.ended || Exhausted(failed, last)
  }

  /** What the last turn must have been for the call to end as it did. */
  predicate Justified(req: Request, t: Turn, failed: int, last: Call, outcome: Outcome) {
    match outcome
    case Success(status, _, _) => t.fate.Answered? && IsSuccess(status)
    case ApiError(status, _) =>
      t.fate.Answered? && !IsSuccess(status) && (IsThrottled(status) ==> Exhausted(failed, last))
    case Cancelled(status) => t.fate.Answered? && IsThrottled(status) && t.ended
    case TransportError => (t.fate.RequestLost? || t.fate.AnswerLost?) && NoReplay(req, t, failed, last)
    case BodyError(_) => t.fate.BodyLost? && NoReplay(req, t, failed, last)
  }

  /** A turn after which the call went on: answered in vain, or a POST without its answer. */
  predicate WentOn(req: Request, t: Turn) {
    !t.ended && (t.fate.Answered? || (req.verb == Post && !t.fate.gaveUp))
  }

  /** A loop head whose deadline is the budget after the first failure. */
  predicate Counted(sched: Schedule, start: int, c: Call) {
    && |c.sent| == c.attempt <= MAX_ATTEMPTS
    && if c.attempt == 0 then c.now == start && c.deadline.None?
       else c.deadline == Some(start + sched(0).reply + RETRY_BUDGET)
  }

  lemma CountedAttempt(tag: Doc -> string, req: Request, sched: Schedule, start: int, c: Call)
    requires Counted(sched, start, c)
    ensures var p := Attempt(tag, req, sched(c.attempt), c);
            && p.call.sent == c.sent + [c.now]
            && if p.Again? then Counted(sched, start, p.call) && p.call.attempt == c.attempt + 1
                                && WentOn(req, sched(c.attempt))
               else Justified(req, sched(c.attempt), start + sched(0).reply, p.call, p.outcome)
  {
  }

  lemma {:induction false} StopsForAReason(tag: Doc -> string, req: Request, sched: Schedule, start: int, c: Call)
    returns (n: nat)
    requires Counted(sched, start, c)
    ensures var (last, outcome) := Run(tag, req, sched, c);
            |last.sent| == n + 1 && Justified(req, sched(n), start + sched(0).reply, last, outcome)
    decreases MAX_ATTEMPTS - c.attempt
  {
    CountedAttempt(tag, req, sched, start, c);
    RunUnfolds(tag, req, sched, c);
    var p := Attempt(tag, req, sched(c.attempt), c);
    if p.Finished? {
      return c.attempt;
    }
    n := StopsForAReason(tag, req, sched, start, p.call);
  }

  lemma {:induction false} GoesOnBefore(tag: Doc -> string, req: Request, sched: Schedule, start: int, c: Call,
                                        n: nat)
    requires Counted(sched, start, c) && |Run(tag, req, sched, c).0.sent| == n + 1
    ensures forall i :: c.attempt <= i < n ==> WentOn(req, sched(i))
    decreases MAX_ATTEMPTS - c.attempt
  {
    CountedAttempt(tag, req, sched, start, c);
    RunUnfolds(tag, req, sched, c);
    var p := Attempt(tag, req, sched(c.attempt), c);
    if p.Again? {
      GoesOnBefore(tag, req, sched, start, p.call, n);
    }
  }

  /**
   For every schedule and every server a call ends for a reason that its last turn shows. A POST without
   its answer is given up only after a cancelled context or the client timeout, at the 51st request, or
   45 s after the first failure; any other method at once; a throttled call at the 51st request, after
   the 45 s, or when its context ends. Every earlier turn was one to go on after.
   */
  lemma WhyCallsStop(tag: Doc -> string, req: Request, sched: Schedule, s: Server, now: int)
    ensures var (last, outcome) := Run(tag, req, sched, Fresh(s, now));
            && last.sent != []
            && Justified(req, sched(|last.sent| - 1), now + sched(0).reply, last, outcome)
            && forall i :: 0 <= i < |last.sent| - 1 ==> WentOn(req, sched(i))
  {
    var n := StopsForAReason(tag, req, sched, now, Fresh(s, now));
    GoesOnBefore(tag, req, sched, now, Fresh(s, now), n);
  }

  // ------------------------------------------------------- calls that get through

  /** A turn that fails in a way that the call retries: throttled, or a POST without its answer. */
  predicate Retryable(req: Request, t: Turn) {
    && !t.ended
    && if t.fate.Answered? then t.verdict.Throttle? else req.verb == Post && !t.fate.gaveUp
  }

  /** The pause after such a turn: what the 423 or 429 asks for, or the backoff. */
  function Pause(t: Turn, attempt: nat): nat {
    Elapsed(Wait(if t.fate.Answered? && t.verdict.Throttle? then t.verdict.retryAfter else None, attempt, t.jitter))
  }

  /** When attempt `i` starts, counted from the start of the call. */
  function StartsAt(sched: Schedule, i: nat): nat {
    if i == 0 then 0 else StartsAt(sched, i - 1) + sched(i - 1).reply + Pause(sched(i - 1), i - 1)
  }

  /** The turns before `n` fail retryably, each within the budget. */
  predicate FailsBefore(req: Request, sched: Schedule, n: nat) {
    forall i :: 0 <= i < n ==>
      Retryable(req, sched(i)) && StartsAt(sched, i) + sched(i).reply < sched(0).reply + 45 * SECOND
  }

  predicate Reached(sched: Schedule, start: int, k: nat, c: Call) {
    c.attempt == k && Counted(sched, start, c) && c.now == start + StartsAt(sched, k)
  }

  /** What the client sees of such a turn. */
  predicate SeenAsRetryable(req: Request, t: Turn, reply: Reply) {
    match reply
    case Full(a) =>
      t.fate.Answered? && t.verdict.Throttle? && IsThrottled(a.status) && a.retryAfter == t.verdict.retryAfter
    case _ => req.verb == Post && !t.fate.Answered? && !reply.gaveUp
  }

  lemma RetryableReply(tag: Doc -> string, req: Request, t: Turn, s: Server, now: int)
    requires Retryable(req, t)
    ensures SeenAsRetryable(req, t, Transmit(tag, s, req, t, now).1)
  {
  }

  lemma RetryableAgain(req: Request, reply: Reply, t: Turn, c: Call)
    requires SeenAsRetryable(req, t, reply) && !t.ended && MayRetry(c)
    ensures Resolve(req, reply, t, c)
         == Again(c.(attempt := c.attempt + 1, deadline := Some(Deadline(c)), now := c.now + Pause(t, c.attempt)))
  {
  }

  lemma RetryableGoesOn(tag: Doc -> string, req: Request, sched: Schedule, start: int, c: Call)
    requires Reached(sched, start, c.attempt, c) && c.attempt < 50 && FailsBefore(req, sched, c.attempt + 1)
    ensures var p := Attempt(tag, req, sched(c.attempt), c);
            p.Again? && Reached(sched, start, c.attempt + 1, p.call)
  {
    var t := sched(c.attempt);
    assert Retryable(req, t) && StartsAt(sched, c.attempt) + t.reply < sched(0).reply + 45 * SECOND;
    var (s, reply) := Transmit(tag, c.server, req, t, c.now);
    RetryableReply(tag, req, t, c.server, c.now);
    RetryableAgain(req, reply, t, c.(now := c.now + t.reply, sent := c.sent + [c.now], server := s));
  }

  /** The loop head of attempt `n`, when the turns before it fail retryably. */
  lemma {:induction false} Reaches(tag: Doc -> string, req: Request, sched: Schedule, log0: seq<Commit>, start: int,
                                   c: Call, n: nat)
    returns (head: Call)
    requires Reached(sched, start, c.attempt, c) && c.attempt <= n <= 50 && FailsBefore(req, sched, n)
    requires WellFormedSchedule(sched)
    requires req.verb == Post ==>
        req.key != "" && Patient(sched, SAFE_RETRY_AFTER) && CallInvariant(tag, req, log0, start, c)
    ensures Reached(sched, start, n, head) && Run(tag, req, sched, c) == Run(tag, req, sched, head)
    ensures req.verb == Post ==> CallInvariant(tag, req, log0, start, head)
    decreases n - c.attempt
  {
    if c.attempt == n {
      return c;
    }
    var t := sched(c.attempt);
    assert WellFormed(t);
    RetryableGoesOn(tag, req, sched, start, c);
    RunUnfolds(tag, req, sched, c);
    if req.verb == Post {
      PostAttempt(tag, req, t, log0, start, c);
    }
    head := Reaches(tag, req, sched, log0, start, Attempt(tag, req, t, c).call, n);
  }

  /** An answered and accepted attempt of a keyed POST is the last, and a success. */
  lemma AcceptedPostEnds(tag: Doc -> string, req: Request, t: Turn, log0: seq<Commit>, start: int, c: Call)
    requires req.verb == Post && req.key != "" && t.fate.Answered? && t.verdict.Accept?
    requires CallInvariant(tag, req, log0, start, c)
    ensures var p := Attempt(tag, req, t, c);
            && p.Finished? && p.outcome.Success? && p.outcome.status == 200
            && p.call.sent == c.sent + [c.now] && p.call.now == c.now + t.reply
  {
    RivalsKeepKey(tag, req.key, log0, start, c.server, t.rivals);
  }

  /**
   A keyed POST gets through every run of retryable failures within the budget: lost requests, lost and
   torn answers, 423s and 429s. It sends one request per turn, at the times that the pauses give, and
   ends in the success of its one commit, with that commit's ETag.
   */
  lemma PostGetsThrough(tag: Doc -> string, key: string, sched: Schedule, s: Server, now: int, n: nat)
    requires WellFormedSchedule(sched) && Patient(sched, SAFE_RETRY_AFTER) && key != "" && key !in s.cache
    requires n <= 50 && FailsBefore(RequestOf(Post, "", key), sched, n)
    requires sched(n).fate.Answered? && sched(n).verdict.Accept?
    ensures var (last, outcome) := Run(tag, RequestOf(Post, "", key), sched, Fresh(s, now));
            && outcome.Success? && outcome.status == 200
            && |last.sent| == n + 1 && last.now == now + StartsAt(sched, n) + sched(n).reply
            && Own(last.server.log) == Own(s.log) + 1
            && Reported(tag, s.log, last.server.log, outcome.receipt, outcome.etag)
  {
    var req := RequestOf(Post, "", key);
    var head := Reaches(tag, req, sched, s.log, now, Fresh(s, now), n);
    AcceptedPostEnds(tag, req, sched(n), s.log, now, head);
    RunUnfolds(tag, req, sched, head);
    DoCommitsOnce(tag, Post, "", key, sched, SAFE_RETRY_AFTER, s, now);
  }

  lemma JudgedOtherEnds(tag: Doc -> string, req: Request, t: Turn, c: Call)
    requires req.verb != Post && req.key == "" && WellFormed(t) && t.fate.Answered? && !t.verdict.Throttle?
    ensures var p := Attempt(tag, req, t, c);
            && p.Finished? && (p.outcome.Success? || p.outcome.ApiError?) && !IsThrottled(p.outcome.status)
            && p.call.sent == c.sent + [c.now] && p.call.now == c.now + t.reply
  {
  }

  /** Any other method gets through 423s and 429s within the budget, to the first other answer. */
  lemma OthersGetThrough(tag: Doc -> string, verb: Verb, ifMatch: string, sched: Schedule, s: Server, now: int, n: nat)
    requires verb != Post && WellFormedSchedule(sched)
    requires n <= 50 && FailsBefore(RequestOf(verb, ifMatch, ""), sched, n)
    requires sched(n).fate.Answered? && !sched(n).verdict.Throttle?
    ensures var (last, outcome) := Run(tag, RequestOf(verb, ifMatch, ""), sched, Fresh(s, now));
            && (outcome.Success? || outcome.ApiError?) && !IsThrottled(outcome.status)
            && |last.sent| == n + 1 && last.now == now + StartsAt(sched, n) + sched(n).reply
  {
    var req := RequestOf(verb, ifMatch, "");
    var head := Reaches(tag, req, sched, s.log, now, Fresh(s, now), n);
    assert WellFormed(sched(n));
    JudgedOtherEnds(tag, req, sched(n), head);
    RunUnfolds(tag, req, sched, head);
  }
}
