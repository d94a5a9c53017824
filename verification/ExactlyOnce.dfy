/** How many commits one `do` call can cause, over every schedule of the network and the server. */
module ExactlyOnce {
  import opened Wrappers
  import opened Backoff
  import opened Protocol

  /** The number of commits in the log that this client made. */
  function Own(log: seq<Commit>): nat {
    if log == [] then 0 else Own(log[..|log| - 1]) + (if log[|log| - 1].own then 1 else 0)
  }

  lemma OwnAppend(log: seq<Commit>, c: Commit)
    ensures Own(log + [c]) == Own(log) + (if c.own then 1 else 0)
  {
    assert (log + [c])[..|log|] == log;
  }

  lemma {:induction false} RivalEffect(s: Server, rivals: seq<Option<Doc>>)
    ensures var s' := RivalCommits(s, rivals);
            && Own(s'.log) == Own(s.log) && s'.cache == s.cache && s.log <= s'.log
            && (rivals == [] ==> s' == s)
    decreases |rivals|
  {
    if rivals != [] {
      var c := Commit(false, Put, "", s.content, rivals[0]);
      OwnAppend(s.log, c);
      RivalEffect(s.(content := rivals[0], log := s.log + [c]), rivals[1..]);
    }
  }

  /** What the server's decision can do to the log and to the cache. */
  lemma HandleEffect(tag: Doc -> string, s: Server, req: Request, v: Verdict, now: int)
    ensures var (s', a) := Handle(tag, s, req, v, now);
            && s.log <= s'.log
            && (s' == s || (s', a) == CommitOwn(tag, s, req, v.result, now))
            && (s'.log != s.log ==> Own(s'.log) == Own(s.log) + 1 && req.verb != Get
                                    && (req.key in s.cache ==>
                                        req.key == "" || now >= s.cache[req.key].at + CACHE_LIFETIME))
  {
    var after := if req.verb == Delete then None else if v.Accept? then Some(v.result) else None;
    OwnAppend(s.log, Commit(true, req.verb, req.ifMatch, s.content, after));
  }

  /** The whole seconds of Retry-After up to which the server's key cache outlives the call. */
  const SAFE_RETRY_AFTER := 86_235

  predicate Within(retryAfter: Option<nat>, secs: nat) {
    retryAfter.Some? ==> retryAfter.value <= secs
  }

  /** The server never asks for a longer pause than `secs` seconds. */
  ghost predicate Patient(sched: Schedule, secs: nat) {
    forall i: nat :: sched(i).verdict.Throttle? ==>
      Within(sched(i).verdict.retryAfter, secs)
  }

  /** The receipt names an own commit that the log gained after `log0`, and the ETag is that commit's. */
  predicate Reported(tag: Doc -> string, log0: seq<Commit>, log: seq<Commit>, receipt: Option<nat>, etag: string) {
    && receipt.Some? && |log0| <= receipt.value < |log|
    && log[receipt.value].own && etag == TagOf(tag, log[receipt.value].after)
  }

  /** The state of the POST's key: not used yet, or cached with the answer of the one commit. */
  predicate KeyState(tag: Doc -> string, key: string, log0: seq<Commit>, start: int, s: Server) {
    && log0 <= s.log
    && if Own(s.log) == Own(log0) then key !in s.cache
       else
         && Own(s.log) == Own(log0) + 1
         && key in s.cache && s.cache[key].at >= start && s.cache[key].answer.status == 200
         && Reported(tag, log0, s.log, s.cache[key].answer.receipt, s.cache[key].answer.etag)
  }

  predicate InTime(start: int, c: Call) {
    if c.attempt == 0 then c.now == start && c.deadline.None?
    else
      && start <= c.now
      && c.deadline.Some?
      && c.deadline.value <= start + CLIENT_TIMEOUT + RETRY_BUDGET
      && c.now < c.deadline.value + SAFE_RETRY_AFTER * SECOND
  }

  predicate CallInvariant(tag: Doc -> string, req: Request, log0: seq<Commit>, start: int, c: Call) {
    if req.verb == Post then KeyState(tag, req.key, log0, start, c.server) && InTime(start, c)
    else log0 <= c.server.log && Own(c.server.log) == Own(log0)
  }

  /**
   What a finished call may claim about the commits that it made. Only a POST can have committed when
   the answer that it returns is an error: it replays, and its replay can be throttled.
   */
  predicate OnceAtMost(tag: Doc -> string, req: Request, log0: seq<Commit>, log: seq<Commit>, outcome: Outcome) {
    && Own(log0) <= Own(log) <= Own(log0) + 1
    && (req.verb == Get ==> Own(log) == Own(log0))
    && (outcome.ApiError? && req.verb != Post ==> Own(log) == Own(log0))
    && (outcome.Success? && req.verb != Get ==>
        Own(log) == Own(log0) + 1 && Reported(tag, log0, log, outcome.receipt, outcome.etag))
  }

  predicate Kept(tag: Doc -> string, req: Request, log0: seq<Commit>, start: int, p: Phase) {
    match p
    case Again(c) => CallInvariant(tag, req, log0, start, c)
    case Finished(c, outcome) => OnceAtMost(tag, req, log0, c.server.log, outcome)
  }

  predicate Answers(tag: Doc -> string, log0: seq<Commit>, log: seq<Commit>, a: Answer) {
    IsSuccess(a.status) ==> Own(log) == Own(log0) + 1 && Reported(tag, log0, log, a.receipt, a.etag)
  }

  lemma SafeWait(retryAfter: Option<nat>, attempt: nat, jitter: nat)
    requires jitter < BASE && Within(retryAfter, SAFE_RETRY_AFTER)
    ensures 0 <= Elapsed(Wait(retryAfter, attempt, jitter)) <= SAFE_RETRY_AFTER * SECOND
  {
    BackoffBounds(attempt, jitter);
  }

  lemma RivalsKeepKey(tag: Doc -> string, key: string, log0: seq<Commit>, start: int, s: Server,
                      rivals: seq<Option<Doc>>)
    requires KeyState(tag, key, log0, start, s)
    ensures KeyState(tag, key, log0, start, RivalCommits(s, rivals))
  {
    RivalEffect(s, rivals);
  }

  /** While the cache entry lives, the server answers the key's one commit again. */
  lemma KeyedHandle(tag: Doc -> string, req: Request, v: Verdict, log0: seq<Commit>, start: int, s: Server, now: int)
    requires req.verb == Post && req.key != "" && (v.Refuse? ==> !IsSuccess(v.status))
    requires KeyState(tag, req.key, log0, start, s)
    requires start <= now < start + CACHE_LIFETIME
    ensures var (s', a) := Handle(tag, s, req, v, now);
            KeyState(tag, req.key, log0, start, s') && Answers(tag, log0, s'.log, a)
  {
    HandleEffect(tag, s, req, v, now);
  }

  /** The Retry-After that a POST sees with a 423 or 429 is the server's own. */
  lemma ThrottleHeader(tag: Doc -> string, req: Request, v: Verdict, log0: seq<Commit>, start: int, s: Server, now: int)
    requires req.verb == Post && req.key != "" && (v.Refuse? ==> v.status !in {423, 429})
    requires KeyState(tag, req.key, log0, start, s)
    ensures var (_, a) := Handle(tag, s, req, v, now);
            IsThrottled(a.status) ==> v.Throttle? && a.retryAfter == v.retryAfter
  {
  }

  /** What the server half of a POST attempt leaves to the client half. */
  predicate Delivered(tag: Doc -> string, req: Request, log0: seq<Commit>, start: int, reply: Reply, c: Call) {
    && KeyState(tag, req.key, log0, start, c.server)
    && start <= c.now && Deadline(c) <= start + CLIENT_TIMEOUT + RETRY_BUDGET
    && match reply
       case Full(a) => Answers(tag, log0, c.server.log, a)
         && (IsThrottled(a.status) ==> Within(a.retryAfter, SAFE_RETRY_AFTER))
       case _ => true
  }

  lemma PostTransmit(tag: Doc -> string, req: Request, t: Turn, log0: seq<Commit>, start: int, s: Server, now: int)
    requires req.verb == Post && req.key != "" && WellFormed(t)
    requires t.verdict.Throttle? ==> Within(t.verdict.retryAfter, SAFE_RETRY_AFTER)
    requires KeyState(tag, req.key, log0, start, s)
    requires start <= now && now + CLIENT_TIMEOUT < start + CACHE_LIFETIME
    ensures var (s', reply) := Transmit(tag, s, req, t, now);
            && KeyState(tag, req.key, log0, start, s')
            && match reply
               case Full(a) => Answers(tag, log0, s'.log, a)
                 && (IsThrottled(a.status) ==> Within(a.retryAfter, SAFE_RETRY_AFTER))
               case _ => true
  {
    RivalsKeepKey(tag, req.key, log0, start, s, t.rivals);
    var s1 := RivalCommits(s, t.rivals);
    KeyedHandle(tag, req, t.verdict, log0, start, s1, now + t.arrival);
    ThrottleHeader(tag, req, t.verdict, log0, start, s1, now + t.arrival);
  }

  /** The client half of a POST attempt, given what the server half left behind. */
  lemma PostResolve(tag: Doc -> string, req: Request, reply: Reply, t: Turn, log0: seq<Commit>, start: int, c: Call)
    requires req.verb == Post && WellFormed(t) && Delivered(tag, req, log0, start, reply, c)
    ensures Kept(tag, req, log0, start, Resolve(req, reply, t, c))
  {
    SafeWait(None, c.attempt, t.jitter);
    if reply.Full? && IsThrottled(reply.answer.status) {
      SafeWait(reply.answer.retryAfter, c.attempt, t.jitter);
    }
  }

  /** A POST attempt, split into what the server half delivered and what the client makes of it. */
  lemma PostHalves(tag: Doc -> string, req: Request, t: Turn, log0: seq<Commit>, start: int, c: Call)
    returns (reply: Reply, c1: Call)
    requires WellFormed(t) && CallInvariant(tag, req, log0, start, c)
    requires req.verb == Post && req.key != ""
    requires t.verdict.Throttle? ==> Within(t.verdict.retryAfter, SAFE_RETRY_AFTER)
    ensures Delivered(tag, req, log0, start, reply, c1) && Attempt(tag, req, t, c) == Resolve(req, reply, t, c1)
  {
    PostTransmit(tag, req, t, log0, start, c.server, c.now);
    var sent := Transmit(tag, c.server, req, t, c.now);
    reply, c1 := sent.1, c.(now := c.now + t.reply, sent := c.sent + [c.now], server := sent.0);
  }

  lemma PostAttempt(tag: Doc -> string, req: Request, t: Turn, log0: seq<Commit>, start: int, c: Call)
    requires WellFormed(t) && CallInvariant(tag, req, log0, start, c)
    requires req.verb == Post && req.key != ""
    requires t.verdict.Throttle? ==> Within(t.verdict.retryAfter, SAFE_RETRY_AFTER)
    ensures Kept(tag, req, log0, start, Attempt(tag, req, t, c))
  {
    var reply, c1 := PostHalves(tag, req, t, log0, start, c);
    PostResolve(tag, req, reply, t, log0, start, c1);
  }

  /** What the server did to the log `log0` when it left the log `log` and gave the answer. */
  predicate Judged(tag: Doc -> string, req: Request, log0: seq<Commit>, log: seq<Commit>, a: Answer) {
    && log0 <= log && Own(log0) <= Own(log) <= Own(log0) + 1
    && (req.verb == Get || !IsSuccess(a.status) ==> Own(log) == Own(log0))
    && (req.verb != Get ==> Answers(tag, log0, log, a))
  }

  /** What the server's decision means for a request without a key. */
  lemma OtherHandle(tag: Doc -> string, req: Request, v: Verdict, s: Server, now: int)
    requires req.verb != Post && req.key == "" && (v.Refuse? ==> !IsSuccess(v.status))
    ensures var (s', a) := Handle(tag, s, req, v, now);
            Judged(tag, req, s.log, s'.log, a)
  {
    HandleEffect(tag, s, req, v, now);
  }

  lemma JudgedFromEarlier(tag: Doc -> string, req: Request, log0: seq<Commit>, log1: seq<Commit>, log: seq<Commit>,
                          a: Answer)
    requires log0 <= log1 && Own(log0) == Own(log1) && Judged(tag, req, log1, log, a)
    ensures Judged(tag, req, log0, log, a)
  {
  }

  /** The server's half of an attempt that reaches it. */
  lemma OtherArrives(tag: Doc -> string, req: Request, t: Turn, s: Server, now: int)
    requires req.verb != Post && req.key == "" && WellFormed(t)
    ensures var (s', a) := Handle(tag, RivalCommits(s, t.rivals), req, t.verdict, now);
            Judged(tag, req, s.log, s'.log, a)
  {
    var s1 := RivalCommits(s, t.rivals);
    var (s', a) := Handle(tag, s1, req, t.verdict, now);
    RivalEffect(s, t.rivals);
    OtherHandle(tag, req, t.verdict, s1, now);
    JudgedFromEarlier(tag, req, s.log, s1.log, s'.log, a);
  }

  /** A method without replay commits in its last attempt or not at all. */
  lemma OtherTransmit(tag: Doc -> string, req: Request, t: Turn, s: Server, now: int)
    requires req.verb != Post && req.key == "" && WellFormed(t)
    ensures var (s', reply) := Transmit(tag, s, req, t, now);
            && s.log <= s'.log && Own(s.log) <= Own(s'.log) <= Own(s.log) + 1
            && (req.verb == Get ==> Own(s'.log) == Own(s.log))
            && (reply.Full? ==> Judged(tag, req, s.log, s'.log, reply.answer))
  {
    if t.fate.RequestLost? {
      RivalEffect(s, t.rivals);
    } else {
      OtherArrives(tag, req, t, s, now + t.arrival);
    }
  }

  lemma OtherAttempt(tag: Doc -> string, req: Request, t: Turn, log0: seq<Commit>, start: int, c: Call)
    requires WellFormed(t) && CallInvariant(tag, req, log0, start, c)
    requires req.verb != Post && req.key == ""
    ensures Kept(tag, req, log0, start, Attempt(tag, req, t, c))
  {
    OtherTransmit(tag, req, t, c.server, c.now);
  }

  /** The key that protects the call, and the patience that the key needs. */
  predicate Protected(req: Request, secs: nat) {
    req.verb == Post ==> req.key != "" && secs <= SAFE_RETRY_AFTER
  }

  lemma {:induction false} RunKeepsInvariant(tag: Doc -> string, req: Request, sched: Schedule, secs: nat,
                                              log0: seq<Commit>, start: int, c: Call)
    requires c.attempt <= MAX_ATTEMPTS && WellFormedSchedule(sched)
    requires if req.verb == Post then Protected(req, secs) && Patient(sched, secs) else req.key == ""
    requires CallInvariant(tag, req, log0, start, c)
    ensures var (last, outcome) := Run(tag, req, sched, c);
            OnceAtMost(tag, req, log0, last.server.log, outcome)
    decreases MAX_ATTEMPTS - c.attempt
  {
    var t := sched(c.attempt);
    assert WellFormed(t);
    if req.verb == Post {
      PostAttempt(tag, req, t, log0, start, c);
    } else {
      OtherAttempt(tag, req, t, log0, start, c);
    }
    AttemptCounts(tag, req, t, c);
    var p := Attempt(tag, req, t, c);
    if p.Again? {
      RunKeepsInvariant(tag, req, sched, secs, log0, start, p.call);
    }
  }

  /**
   One `do` call commits at most once, and a write that reports success committed exactly once and
   returns the ETag of that commit, whatever is lost, throttled or written by others in between.
   */
  lemma DoCommitsOnce(tag: Doc -> string, verb: Verb, ifMatch: string, newKey: string, sched: Schedule,
                      secs: nat, s: Server, now: int)
    requires WellFormedSchedule(sched)
    requires verb == Post ==> newKey != "" && newKey !in s.cache && Patient(sched, secs) && secs <= SAFE_RETRY_AFTER
    ensures var (last, outcome) := Run(tag, RequestOf(verb, ifMatch, newKey), sched, Fresh(s, now));
            OnceAtMost(tag, RequestOf(verb, ifMatch, newKey), s.log, last.server.log, outcome)
  {
    RunKeepsInvariant(tag, RequestOf(verb, ifMatch, newKey), sched, secs, s.log, now, Fresh(s, now));
  }

  /** No schedule with pauses of at most `secs` makes this request commit twice. */
  ghost predicate NeverTwice(tag: Doc -> string, req: Request, secs: nat) {
    forall sched: Schedule, s: Server, now: int ::
      WellFormedSchedule(sched) && Patient(sched, secs) && req.key !in s.cache ==>
      Own(Run(tag, req, sched, Fresh(s, now)).0.server.log) <= Own(s.log) + 1
  }

  function Quiet(fate: Fate, verdict: Verdict, arrival: nat, reply: nat): Turn {
    Turn([], fate, verdict, arrival, reply, 0, false)
  }

  /** Commit with a lost answer, a long Retry-After just inside the budget, and the replay. */
  function ExpiringSchedule(secs: nat): Schedule {
    (i: nat) =>
      if i == 0 then Quiet(AnswerLost(false), Accept(""), 0, CLIENT_TIMEOUT)
      else if i == 1 then
        Quiet(Answered, Throttle(true, Some(secs)), 0, RETRY_BUDGET - BASE - 1)
      else Quiet(Answered, Accept(""), CLIENT_TIMEOUT, CLIENT_TIMEOUT)
  }

  lemma LostCommitIsReplayed(tag: Doc -> string, req: Request, reply: nat)
    requires req.verb == Post
    ensures var s := CommitOwn(tag, Server(None, [], map[]), req, "", 0).0;
            && Own(s.log) == 1
            && Attempt(tag, req, Quiet(AnswerLost(false), Accept(""), 0, reply), Fresh(Server(None, [], map[]), 0))
               == Again(Call(1, Some(reply + RETRY_BUDGET), reply + BASE, [0], s))
  {
    var s0 := Server(None, [], map[]);
    var s := CommitOwn(tag, s0, req, "", 0).0;
    OwnAppend(s0.log, s.log[0]);
    var t := Quiet(AnswerLost(false), Accept(""), 0, reply);
    assert RivalCommits(s0, []) == s0;
    assert Handle(tag, s0, req, t.verdict, 0) == CommitOwn(tag, s0, req, "", 0);
    assert Transmit(tag, s0, req, t, 0) == (s, Nothing(false));
    assert Wait(None, 0, 0) == Doubled(0) == BASE;
    var c1 := Call(0, None, reply, [] + [0], s);
    assert Attempt(tag, req, t, Fresh(s0, 0)) == Replay(req, false, t, c1, TransportError);
    assert [] + [0] == [0];
  }

  lemma UncachedPostCommits(tag: Doc -> string, req: Request, arrival: nat, reply: nat, c: Call)
    requires req.verb == Post
    requires req.key in c.server.cache ==>
        req.key == "" || c.now + arrival >= c.server.cache[req.key].at + CACHE_LIFETIME
    ensures var p := Attempt(tag, req, Quiet(Answered, Accept(""), arrival, reply), c);
            p.Finished? && Own(p.call.server.log) == Own(c.server.log) + 1
  {
    var (s, a) := CommitOwn(tag, c.server, req, "", c.now + arrival);
    OwnAppend(c.server.log, s.log[|c.server.log|]);
    assert RivalCommits(c.server, []) == c.server;
    assert Transmit(tag, c.server, req, Quiet(Answered, Accept(""), arrival, reply), c.now) == (s, Full(a));
  }

  lemma LongPause(tag: Doc -> string, req: Request, secs: nat, reply: nat, c: Call)
    requires secs <= 1_000_000 && c.attempt < MAX_ATTEMPTS
    requires c.deadline.Some? && c.now + reply < c.deadline.value
    ensures Attempt(tag, req, Quiet(Answered, Throttle(true, Some(secs)), 0, reply), c)
         == Again(c.(attempt := c.attempt + 1, now := c.now + reply + secs * SECOND, sent := c.sent + [c.now]))
  {
    assert RivalCommits(c.server, []) == c.server;
    var answer := Answer(429, "", Some(secs), None);
    var t := Quiet(Answered, Throttle(true, Some(secs)), 0, reply);
    assert Transmit(tag, c.server, req, t, c.now) == (c.server, Full(answer));
    assert Wait(Some(secs), c.attempt, 0) == secs * SECOND;
  }

  /** The second half of the expiring schedule, from the loop head after the lost answer on. */
  lemma PausedReplayCommits(tag: Doc -> string, req: Request, secs: nat, c: Call)
    requires req.verb == Post && req.key in c.server.cache && c.attempt == 1 && secs <= 1_000_000
    requires c.now == CLIENT_TIMEOUT + BASE && c.deadline == Some(CLIENT_TIMEOUT + RETRY_BUDGET)
    requires c.now + RETRY_BUDGET - BASE - 1 + secs * SECOND + CLIENT_TIMEOUT
          >= c.server.cache[req.key].at + CACHE_LIFETIME
    ensures Own(Run(tag, req, ExpiringSchedule(secs), c).0.server.log) == Own(c.server.log) + 1
  {
    var sched := ExpiringSchedule(secs);
    LongPause(tag, req, secs, RETRY_BUDGET - BASE - 1, c);
    RunUnfolds(tag, req, sched, c);
    var c2 := Attempt(tag, req, sched(1), c).call;
    UncachedPostCommits(tag, req, CLIENT_TIMEOUT, CLIENT_TIMEOUT, c2);
    RunUnfolds(tag, req, sched, c2);
  }

  lemma ExpiringScheduleIsFair(secs: nat)
    ensures WellFormedSchedule(ExpiringSchedule(secs)) && Patient(ExpiringSchedule(secs), secs)
  {
    var sched := ExpiringSchedule(secs);
    forall i: nat
      ensures WellFormed(sched(i)) && (sched(i).verdict.Throttle? ==> Within(sched(i).verdict.retryAfter, secs))
    {
      if i == 0 {
        assert sched(i) == Quiet(AnswerLost(false), Accept(""), 0, CLIENT_TIMEOUT);
      } else if i == 1 {
        assert sched(i) == Quiet(Answered, Throttle(true, Some(secs)), 0, RETRY_BUDGET - BASE - 1);
      } else {
        assert sched(i) == Quiet(Answered, Accept(""), CLIENT_TIMEOUT, CLIENT_TIMEOUT);
      }
    }
  }

  lemma ExpiredKeyCommitsTwice(tag: Doc -> string, req: Request)
    requires req.verb == Post && req.key != ""
    ensures var sched := ExpiringSchedule(SAFE_RETRY_AFTER + 1);
            && WellFormedSchedule(sched) && Patient(sched, SAFE_RETRY_AFTER + 1)
            && Own(Run(tag, req, sched, Fresh(Server(None, [], map[]), 0)).0.server.log) == 2
  {
    var secs := SAFE_RETRY_AFTER + 1;
    var c0 := Fresh(Server(None, [], map[]), 0);
    ExpiringScheduleIsFair(secs);
    LostCommitIsReplayed(tag, req, CLIENT_TIMEOUT);
    RunUnfolds(tag, req, ExpiringSchedule(secs), c0);
    PausedReplayCommits(tag, req, secs, Attempt(tag, req, ExpiringSchedule(secs)(0), c0).call);
  }

  /** Without a key, a lost answer and its replay are two commits. */
  function LosingSchedule(): Schedule {
    (i: nat) => Quiet(if i == 0 then AnswerLost(false) else Answered, Accept(""), 0, 0)
  }

  lemma MissingKeyCommitsTwice(tag: Doc -> string, req: Request)
    requires req.verb == Post && req.key == ""
    ensures var sched := LosingSchedule();
            && WellFormedSchedule(sched) && Patient(sched, 0)
            && Own(Run(tag, req, sched, Fresh(Server(None, [], map[]), 0)).0.server.log) == 2
  {
    var sched := LosingSchedule();
    var c0 := Fresh(Server(None, [], map[]), 0);
    LostCommitIsReplayed(tag, req, 0);
    var c1 := Attempt(tag, req, sched(0), c0).call;
    UncachedPostCommits(tag, req, 0, 0, c1);
    RunUnfolds(tag, req, sched, c0);
    RunUnfolds(tag, req, sched, c1);
  }

  /**
   Exactly when a call can never commit twice: it is no POST, or it carries a key and the server
   never asks for a pause above 86 235 s, beyond which its 24-hour key cache can forget the commit.
   */
  lemma NeverTwiceIff(tag: Doc -> string, req: Request, secs: nat)
    requires req.verb != Post ==> req.key == ""
    ensures NeverTwice(tag, req, secs) <==> Protected(req, secs)
  {
    if Protected(req, secs) {
      forall sched: Schedule, s: Server, now: int
        | WellFormedSchedule(sched) && Patient(sched, secs) && req.key !in s.cache
        ensures Own(Run(tag, req, sched, Fresh(s, now)).0.server.log) <= Own(s.log) + 1
      {
        RunKeepsInvariant(tag, req, sched, secs, s.log, now, Fresh(s, now));
      }
    } else if req.key == "" {
      MissingKeyCommitsTwice(tag, req);
      assert Patient(LosingSchedule(), secs);
    } else {
      ExpiredKeyCommitsTwice(tag, req);
      var sched := ExpiringSchedule(SAFE_RETRY_AFTER + 1);
      assert Patient(sched, secs);
      assert req.key !in Server(None, [], map[]).cache;
    }
  }
}
