/**
 The request protocol of `Client.do` over a network that loses requests and answers.

 The server is the contract that the client's comments state. A 423 or a 429 committed nothing. A
 keyed POST that committed has its 2xx answer cached for 24 hours and later requests with the key
 get that answer. If-Match is compared with the commit in one step. A refusal committed nothing.
 */
module Protocol {
  import opened Wrappers
  import opened Backoff

  /** The stored form of the section under management, as text. */
  type Doc = string

  datatype Verb = Get | Post | Put | Patch | Delete

  datatype Request = Request(verb: Verb, ifMatch: string, key: string)

  datatype Commit = Commit(own: bool, verb: Verb, guard: string, before: Option<Doc>, after: Option<Doc>)

  /**
   `retryAfter` is the Retry-After header as `Backoff.RetryAfter` reads it, and `receipt` the position
   in the log of the commit that the answer reports.
   */
  datatype Answer = Answer(status: nat, etag: string, retryAfter: Option<nat>, receipt: Option<nat>)

  datatype Cached = Cached(answer: Answer, at: int)

  datatype Server = Server(content: Option<Doc>, log: seq<Commit>, cache: map<string, Cached>)

  const CACHE_LIFETIME := 86_400 * SECOND
  const CLIENT_TIMEOUT := 60 * SECOND

  /** What the server decides about a request that is neither cached nor guarded off. */
  datatype Verdict =
    | Throttle(limited: bool, retryAfter: Option<nat>)
    | Refuse(status: nat)
    | Accept(result: Doc)

  /** `gaveUp` says that the error is a cancelled context or the 60 s client timeout. */
  datatype Fate =
    | RequestLost(gaveUp: bool)
    | AnswerLost(gaveUp: bool)
    | BodyLost(gaveUp: bool)
    | Answered

  /**
   One attempt as the outside world plays it: the commits of other writers that land before the
   request, its fate, the server's verdict, when it reaches the server and when the client learns
   the outcome, the jitter, and whether the context ends during the wait that may follow.
   */
  datatype Turn = Turn(rivals: seq<Option<Doc>>, fate: Fate, verdict: Verdict,
                       arrival: nat, reply: nat, jitter: nat, ended: bool)

  predicate WellFormed(t: Turn) {
    && t.arrival <= t.reply <= CLIENT_TIMEOUT
    && t.jitter < BASE
    && (t.verdict.Refuse? ==> !IsSuccess(t.verdict.status) && t.verdict.status !in {412, 423, 429})
  }

  type Schedule = nat -> Turn

  ghost predicate WellFormedSchedule(sched: Schedule) {
    forall i: nat :: WellFormed(sched(i))
  }

  predicate IsSuccess(status: nat) {
    200 <= status < 300
  }

  predicate IsThrottled(status: nat) {
    status == 423 || status == 429
  }

  // ------------------------------------------------------------- the server

  function RivalCommits(s: Server, rivals: seq<Option<Doc>>): Server
    decreases |rivals|
  {
    if rivals == [] then s
    else
      var c := Commit(false, Put, "", s.content, rivals[0]);
      RivalCommits(s.(content := rivals[0], log := s.log + [c]), rivals[1..])
  }

  function TagOf(tag: Doc -> string, content: Option<Doc>): string {
    match content
    case Some(d) => tag(d)
    case None => ""
  }

  function CommitOwn(tag: Doc -> string, s: Server, req: Request, result: Doc, now: int): (Server, Answer) {
    var after := if req.verb == Delete then None else Some(result);
    var answer := Answer(if req.verb == Delete then 204 else 200, TagOf(tag, after), None, Some(|s.log|));
    var s' := s.(content := after,
                 log := s.log + [Commit(true, req.verb, req.ifMatch, s.content, after)],
                 cache := if req.key != "" then s.cache[req.key := Cached(answer, now)] else s.cache);
    (s', answer)
  }

  function Handle(tag: Doc -> string, s: Server, req: Request, v: Verdict, now: int): (Server, Answer) {
    if v.Throttle? then (s, Answer(if v.limited then 429 else 423, "", v.retryAfter, None))
    else if req.key != "" && req.key in s.cache && now < s.cache[req.key].at + CACHE_LIFETIME then
      (s, s.cache[req.key].answer)
    else if req.verb != Post && s.content.None? then (s, Answer(404, "", None, None))
    else if req.verb != Post && req.ifMatch != "" && req.ifMatch != TagOf(tag, s.content) then
      (s, Answer(412, "", None, None))
    else if v.Refuse? then (s, Answer(v.status, "", None, None))
    else if req.verb == Get then (s, Answer(200, TagOf(tag, s.content), None, None))
    else CommitOwn(tag, s, req, v.result, now)
  }

  /** What the client sees of one attempt. */
  datatype Reply = Nothing(gaveUp: bool) | Torn(status: nat, gaveUp: bool) | Full(answer: Answer)

  function Transmit(tag: Doc -> string, s: Server, req: Request, t: Turn, now: int): (Server, Reply) {
    var s1 := RivalCommits(s, t.rivals);
    if t.fate.RequestLost? then (s1, Nothing(t.fate.gaveUp))
    else
      var (s2, answer) := Handle(tag, s1, req, t.verdict, now + t.arrival);
      (s2, match t.fate
           case AnswerLost(g) => Nothing(g)
           case BodyLost(g) => Torn(answer.status, g)
           case _ => Full(answer))
  }

  // ------------------------------------------------------------- the client

  datatype Outcome =
    | Success(status: nat, etag: string, receipt: Option<nat>)
    | ApiError(status: nat, etag: string)
    | TransportError
    | BodyError(status: nat)
    | Cancelled(status: nat)

  /** The variables of the retry loop, with the server and the send times so far. */
  datatype Call = Call(attempt: nat, deadline: Option<int>, now: int, sent: seq<int>, server: Server)

  datatype Phase = Again(call: Call) | Finished(call: Call, outcome: Outcome)

  function Deadline(c: Call): int {
    if c.deadline.Some? then c.deadline.value else c.now + RETRY_BUDGET
  }

  predicate MayRetry(c: Call) {
    c.attempt < MAX_ATTEMPTS && c.now < Deadline(c)
  }

  /** replayPost, followed by `continue` or by the return that reports the failure. */
  function Replay(req: Request, gaveUp: bool, t: Turn, c: Call, failure: Outcome): Phase {
    if req.verb != Post || gaveUp then Finished(c, failure)
    else
      var c1 := c.(deadline := Some(Deadline(c)));
      if !MayRetry(c) || t.ended then Finished(c1, failure)
      else Again(c1.(attempt := c.attempt + 1, now := c.now + Elapsed(Wait(None, c.attempt, t.jitter))))
  }

  function Conclude(a: Answer): Outcome {
    if IsSuccess(a.status) then Success(a.status, a.etag, a.receipt) else ApiError(a.status, a.etag)
  }

  function Judge(a: Answer, t: Turn, c: Call): Phase {
    if !IsThrottled(a.status) then Finished(c, Conclude(a))
    else
      var c1 := c.(deadline := Some(Deadline(c)));
      if !MayRetry(c) then Finished(c1, Conclude(a))
      else if t.ended then Finished(c1, Cancelled(a.status))
      else Again(c1.(attempt := c.attempt + 1,
                     now := c.now + Elapsed(Wait(a.retryAfter, c.attempt, t.jitter))))
  }

  /** What the client makes of the reply, with the clock already at its arrival. */
  function Resolve(req: Request, reply: Reply, t: Turn, c: Call): Phase {
    match reply
    case Nothing(gaveUp) => Replay(req, gaveUp, t, c, TransportError)
    case Torn(status, gaveUp) => Replay(req, gaveUp, t, c, BodyError(status))
    case Full(answer) => Judge(answer, t, c)
  }

  /** One pass through the body of the retry loop. */
  function Attempt(tag: Doc -> string, req: Request, t: Turn, c: Call): Phase {
    var (s, reply) := Transmit(tag, c.server, req, t, c.now);
    Resolve(req, reply, t, c.(now := c.now + t.reply, sent := c.sent + [c.now], server := s))
  }

  lemma AttemptCounts(tag: Doc -> string, req: Request, t: Turn, c: Call)
    ensures var p := Attempt(tag, req, t, c);
            p.Again? ==> p.call.attempt == c.attempt + 1 <= MAX_ATTEMPTS
  {
  }

  /** The whole retry loop from `c` on; only a finished phase comes back. */
  function Run(tag: Doc -> string, req: Request, sched: Schedule, c: Call): (Call, Outcome)
    requires c.attempt <= MAX_ATTEMPTS
    decreases MAX_ATTEMPTS - c.attempt
  {
    AttemptCounts(tag, req, sched(c.attempt), c);
    match Attempt(tag, req, sched(c.attempt), c)
    case Again(c1) => Run(tag, req, sched, c1)
    case Finished(c1, outcome) => (c1, outcome)
  }

  lemma RunUnfolds(tag: Doc -> string, req: Request, sched: Schedule, c: Call)
    requires c.attempt <= MAX_ATTEMPTS
    ensures var p := Attempt(tag, req, sched(c.attempt), c);
            && (p.Again? ==> p.call.attempt == c.attempt + 1 <= MAX_ATTEMPTS)
            && Run(tag, req, sched, c) == if p.Again? then Run(tag, req, sched, p.call) else (p.call, p.outcome)
  {
    AttemptCounts(tag, req, sched(c.attempt), c);
  }

  function Fresh(s: Server, now: int): Call {
    Call(0, None, now, [], s)
  }

  /** One idempotency key per logical create; the other methods carry none. */
  function RequestOf(verb: Verb, ifMatch: string, newKey: string): Request {
    Request(verb, ifMatch, if verb == Post then newKey else "")
  }

  /** The router and the wall clock, which the client acts on in place. */
  class World {
    var server: Server
    var now: int
    const tag: Doc -> string

    constructor (server: Server, now: int, tag: Doc -> string)
      ensures this.server == server && this.now == now && this.tag == tag
    {
      this.server, this.now, this.tag := server, now, tag;
    }

    method Exchange(req: Request, t: Turn) returns (reply: Reply)
      modifies this
      ensures (server, reply) == Transmit(tag, old(server), req, t, old(now))
      ensures now == old(now) + t.reply
    {
      var (s, r) := Transmit(tag, server, req, t, now);
      server, now, reply := s, now + t.reply, r;
    }

    method Sleep(wait: int)
      modifies `now
      ensures now == old(now) + Elapsed(wait)
    {
      now := now + Elapsed(wait);
    }
  }

  /**
   replayPost: waits out the backoff and reports whether the POST may be sent again. `c` is the
   caller's loop state and `failure` the error it reports when the answer is no.
   */
  method ReplayPost(w: World, req: Request, gaveUp: bool, deadline: Option<int>, attempt: nat, t: Turn,
                    ghost c: Call, ghost failure: Outcome)
    returns (again: bool, deadline': Option<int>)
    requires c.attempt == attempt && c.deadline == deadline && c.now == w.now
    modifies w`now
    ensures Replay(req, gaveUp, t, c, failure) ==
      if again then Again(c.(attempt := attempt + 1, deadline := deadline', now := w.now))
      else Finished(c.(deadline := deadline', now := w.now), failure)
  {
    if req.verb != Post || gaveUp {
      return false, deadline;
    }
    deadline' := if deadline.None? then Some(w.now + RETRY_BUDGET) else deadline;
    if attempt >= MAX_ATTEMPTS || w.now >= deadline'.value || t.ended {
      return false, deadline';
    }
    w.Sleep(Wait(None, attempt, t.jitter));
    again := true;
  }

  /** The body of the retry loop, up to the `continue` or the return. */
  method TryOnce(w: World, req: Request, deadline: Option<int>, attempt: nat, t: Turn, ghost c: Call)
    returns (again: bool, deadline': Option<int>, outcome: Outcome, ghost c': Call)
    requires c.attempt == attempt && c.deadline == deadline && c.now == w.now && c.server == w.server
    modifies w
    ensures Attempt(w.tag, req, t, c) == if again then Again(c') else Finished(c', outcome)
    ensures c'.attempt == (if again then attempt + 1 else attempt)
    ensures c'.deadline == deadline' && c'.now == w.now && c'.server == w.server
  {
    again, deadline' := false, deadline;
    ghost var sent := c.sent + [w.now];
    var reply := w.Exchange(req, t);
    ghost var c1 := c.(now := w.now, sent := sent, server := w.server);
    match reply {
      case Nothing(gaveUp) =>
        outcome := TransportError;
        again, deadline' := ReplayPost(w, req, gaveUp, deadline, attempt, t, c1, outcome);
      case Torn(status, gaveUp) =>
        outcome := BodyError(status);
        again, deadline' := ReplayPost(w, req, gaveUp, deadline, attempt, t, c1, outcome);
      case Full(answer) =>
        outcome := if IsSuccess(answer.status) then Success(answer.status, answer.etag, answer.receipt)
                   else ApiError(answer.status, answer.etag);
        if IsThrottled(answer.status) {
          if deadline'.None? {
            deadline' := Some(w.now + RETRY_BUDGET);
          }
          if attempt < MAX_ATTEMPTS && w.now < deadline'.value {
            if t.ended {
              outcome := Cancelled(answer.status);
            } else {
              w.Sleep(Wait(answer.retryAfter, attempt, t.jitter));
              again := true;
            }
          }
        }
    }
    c' := c1.(attempt := if again then attempt + 1 else attempt, deadline := deadline', now := w.now);
  }

  /** Client.do, against a schedule of what the outside world does at each attempt. */
  method Do(w: World, verb: Verb, ifMatch: string, newKey: string, sched: Schedule)
    returns (outcome: Outcome, ghost last: Call)
    modifies w
    ensures (last, outcome) ==
      Run(w.tag, RequestOf(verb, ifMatch, newKey), sched, Fresh(old(w.server), old(w.now)))
    ensures w.server == last.server && w.now == last.now
  {
    var key := "";
    if verb == Post {
      key := newKey;
    }
    var req := Request(verb, ifMatch, key);
    var attempt: nat, deadline: Option<int> := 0, None;
    ghost var final := Run(w.tag, req, sched, Fresh(w.server, w.now));
    last := Fresh(w.server, w.now);
    while true
      invariant attempt == last.attempt <= MAX_ATTEMPTS && deadline == last.deadline
      invariant w.now == last.now && w.server == last.server
      invariant final == Run(w.tag, req, sched, last)
      decreases MAX_ATTEMPTS - attempt
    {
      RunUnfolds(w.tag, req, sched, last);
      var again;
      again, deadline, outcome, last := TryOnce(w, req, deadline, attempt, sched(attempt), last);
      if !again {
        return;
      }
      attempt := attempt + 1;
    }
  }
}
