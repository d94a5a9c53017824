/**
 Lives of a resource in which nobody else writes and no answer is lost: the state always holds the ETag
 of what the router stores, so the provider never trips over its own If-Match.
 */
module QuietRuns {
  import opened Wrappers
  import opened Backoff
  import opened Protocol
  import opened GuardedRuns

  /** An answered attempt with nobody in between; what the server holds it does not call missing. */
  predicate QuietTurn(t: Turn) {
    WellFormed(t) && t.rivals == [] && t.fate.Answered? && (t.verdict.Refuse? ==> t.verdict.status != 404)
  }

  ghost predicate Quiet(sched: Schedule) {
    forall i: nat :: QuietTurn(sched(i))
  }

  /** A request that neither the cache nor a missing section nor its guard decides. */
  predicate Unopposed(tag: Doc -> string, req: Request, s: Server) {
    && (req.key != "" ==> req.key !in s.cache)
    && (req.verb != Post ==> s.content.Some? && req.ifMatch in {"", tag(s.content.value)})
  }

  /** A request for a missing section, or with a guard that names another document. */
  predicate Denied(tag: Doc -> string, req: Request, s: Server) {
    req.verb != Post && req.key == "" && (s.content.Some? ==> req.ifMatch !in {"", tag(s.content.value)})
  }

  /** What an accepted request leaves in the section. */
  function Wanted(verb: Verb, before: Option<Doc>, sent: Doc): Option<Doc> {
    match verb
    case Get => before
    case Delete => None
    case _ => Some(sent)
  }

  /** A POST without a key leaves nothing in the cache. */
  function KeySet(key: string): set<string> {
    if key == "" then {} else {key}
  }

  /** How a call ends, told by the server's last verdict: the client learns exactly what happened. */
  predicate Told(tag: Doc -> string, req: Request, before: Server, v: Verdict, after: Server, outcome: Outcome) {
    match v
    case Throttle(_, _) => after == before && !outcome.Success? && (outcome.ApiError? ==> IsThrottled(outcome.status))
    case Refuse(status) => after == before && outcome.ApiError? && outcome.status == status
    case Accept(sent) =>
      && outcome.Success? && after.content == Wanted(req.verb, before.content, sent)
      && outcome.etag == TagOf(tag, after.content) && after.cache.Keys <= before.cache.Keys + KeySet(req.key)
      && (req.verb == Get ==> after == before)
  }

  lemma QuietAttempt(tag: Doc -> string, req: Request, t: Turn, c: Call)
    requires QuietTurn(t) && Unopposed(tag, req, c.server)
    ensures var p := Attempt(tag, req, t, c);
            && p.call.sent == c.sent + [c.now]
            && if p.Again? then p.call.server == c.server
               else Told(tag, req, c.server, t.verdict, p.call.server, p.outcome)
  {
    assert RivalCommits(c.server, []) == c.server;
  }

  /** The call ends with attempt `n`, in what the verdict of that attempt says. */
  lemma {:induction false} QuietRun(tag: Doc -> string, req: Request, sched: Schedule, c: Call) returns (n: nat)
    requires Quiet(sched) && Unopposed(tag, req, c.server) && |c.sent| == c.attempt <= MAX_ATTEMPTS
    ensures var (last, outcome) := Run(tag, req, sched, c);
            && |last.sent| == n + 1
            && Told(tag, req, c.server, sched(n).verdict, last.server, outcome)
    decreases MAX_ATTEMPTS - c.attempt
  {
    assert QuietTurn(sched(c.attempt));
    QuietAttempt(tag, req, sched(c.attempt), c);
    RunUnfolds(tag, req, sched, c);
    var p := Attempt(tag, req, sched(c.attempt), c);
    if p.Finished? {
      return c.attempt;
    }
    n := QuietRun(tag, req, sched, p.call);
  }

  // ------------------------------------------------------------- whole lives

  ghost predicate QuietOp(op: Op) {
    if op.Meanwhile? then op.rivals == [] else Quiet(op.sched)
  }

  /** No create reuses a key, neither one of this life nor one that the server has cached. */
  predicate NewKeys(s: Server, ops: seq<Op>) {
    && (forall i :: 0 <= i < |ops| && ops[i].Create? && ops[i].newKey != "" ==> ops[i].newKey !in s.cache)
    && forall i, j :: 0 <= i < j < |ops| && ops[i].Create? && ops[j].Create? && ops[i].newKey != "" ==>
         ops[i].newKey != ops[j].newKey
  }

  /** The state is there exactly when the section is, and holds the ETag of what the section holds. */
  predicate InStep(tag: Doc -> string, sys: System) {
    && (sys.held.Some? <==> sys.server.content.Some?)
    && (sys.held.Some? ==> sys.held.value == tag(sys.server.content.value))
  }

  function VerbOf(op: Op): Verb
    requires !op.Meanwhile?
  {
    match op
    case Create(_, _) => Post
    case Refresh(_) => Get
    case Update(patch, _) => if patch then Patch else Put
    case Destroy(_) => Delete
  }

  /** Whether the operation sends anything: a create when there is no state, the others when there is. */
  predicate Sends(sys: System, op: Op) {
    !op.Meanwhile? && (op.Create? <==> sys.held.None?)
  }

  /** The section after one operation, by the last verdict `v` that its call drew. */
  predicate Moves(before: Option<Doc>, op: Op, v: Verdict, after: Option<Doc>)
    requires !op.Meanwhile?
  {
    after == if v.Accept? then Wanted(VerbOf(op), before, v.result) else before
  }

  lemma QuietStep(tag: Doc -> string, sys: System, op: Op) returns (n: nat)
    requires InStep(tag, sys) && QuietOp(op)
    requires op.Create? && op.newKey != "" ==> op.newKey !in sys.server.cache
    ensures InStep(tag, Step(tag, sys, op))
    ensures Step(tag, sys, op).server.cache.Keys <= sys.server.cache.Keys + KeySet(if op.Create? then op.newKey else "")
    ensures if Sends(sys, op) then
              Moves(sys.server.content, op, op.sched(n).verdict, Step(tag, sys, op).server.content)
            else Step(tag, sys, op) == sys
  {
    n := 0;
    if op.Meanwhile? {
      assert RivalCommits(sys.server, []) == sys.server;
    } else if Sends(sys, op) {
      var guard := if op.Update? || op.Destroy? then sys.held.value else "";
      var req := RequestOf(VerbOf(op), guard, if op.Create? then op.newKey else "");
      n := QuietRun(tag, req, op.sched, Fresh(sys.server, sys.now));
      assert QuietTurn(op.sched(n));
    }
  }

  /**
   However creates, refreshes, updates and deletes follow each other, with any answers of the server,
   the state stays in step with the router after every one of them.
   */
  lemma {:induction false} QuietLivesStayInStep(tag: Doc -> string, sys: System, ops: seq<Op>)
    requires InStep(tag, sys) && NewKeys(sys.server, ops)
    requires forall i :: 0 <= i < |ops| ==> QuietOp(ops[i])
    ensures InStep(tag, Steps(tag, sys, ops))
    decreases |ops|
  {
    if ops != [] {
      assert QuietOp(ops[0]);
      var n := QuietStep(tag, sys, ops[0]);
      QuietLivesStayInStep(tag, Step(tag, sys, ops[0]), ops[1..]);
    }
  }

  /** The request of a read, an update or a destroy, with the guard that the state holds. */
  function GuardedRequest(sys: System, op: Op): Request
    requires op.Refresh? || op.Update? || op.Destroy?
    requires sys.held.Some?
  {
    RequestOf(VerbOf(op), if op.Refresh? then "" else sys.held.value, "")
  }

  /** The call ends in what the verdict of its last attempt says, and is no 404 and no 412. */
  ghost predicate Honest(tag: Doc -> string, sys: System, op: Op, n: nat)
    requires op.Refresh? || op.Update? || op.Destroy?
    requires sys.held.Some?
  {
    var req := GuardedRequest(sys, op);
    var (last, outcome) := Run(tag, req, op.sched, Fresh(sys.server, sys.now));
    && |last.sent| == n + 1
    && Told(tag, req, sys.server, op.sched(n).verdict, last.server, outcome)
    && !(outcome.ApiError? && outcome.status in {404, 412})
  }

  lemma QuietCall(tag: Doc -> string, sys: System, op: Op) returns (n: nat)
    requires InStep(tag, sys) && QuietOp(op) && sys.held.Some? && (op.Refresh? || op.Update? || op.Destroy?)
    ensures Honest(tag, sys, op, n)
  {
    n := QuietRun(tag, GuardedRequest(sys, op), op.sched, Fresh(sys.server, sys.now));
    assert QuietTurn(op.sched(n));
  }

  /**
   So no update, destroy or refresh in such a life is ever answered 412 or 404: whatever came before, the
   call ends in success when the server accepts it, and changes nothing when the server does not.
   */
  lemma NothingIsStale(tag: Doc -> string, sys: System, ops: seq<Op>, i: nat) returns (n: nat)
    requires InStep(tag, sys) && NewKeys(sys.server, ops) && i < |ops|
    requires forall j :: 0 <= j < |ops| ==> QuietOp(ops[j])
    requires ops[i].Refresh? || ops[i].Update? || ops[i].Destroy?
    ensures var now := Steps(tag, sys, ops[..i]);
            InStep(tag, now) && (now.held.Some? ==> Honest(tag, now, ops[i], n))
  {
    QuietLivesStayInStep(tag, sys, ops[..i]);
    var now := Steps(tag, sys, ops[..i]);
    assert QuietOp(ops[i]);
    n := 0;
    if now.held.Some? {
      n := QuietCall(tag, now, ops[i]);
    }
  }

  // --------------------------------------------------- states that are out of step

  /** What the server says of a missing section, and of a guard that names another document. */
  function Denial(s: Server): nat {
    if s.content.None? then 404 else 412
  }

  /** A denied request is told so, unless the lock holds to the end; either way nothing changes. */
  predicate ToldDenied(before: Server, v: Verdict, after: Server, outcome: Outcome) {
    && after == before
    && if v.Throttle? then !outcome.Success? && (outcome.ApiError? ==> IsThrottled(outcome.status))
       else outcome == ApiError(Denial(before), "")
  }

  lemma DeniedAttempt(tag: Doc -> string, req: Request, t: Turn, c: Call)
    requires QuietTurn(t) && Denied(tag, req, c.server)
    ensures var p := Attempt(tag, req, t, c);
            && p.call.sent == c.sent + [c.now]
            && if p.Again? then p.call.server == c.server
               else ToldDenied(c.server, t.verdict, p.call.server, p.outcome)
  {
    assert RivalCommits(c.server, []) == c.server;
  }

  lemma {:induction false} DeniedRun(tag: Doc -> string, req: Request, sched: Schedule, c: Call) returns (n: nat)
    requires Quiet(sched) && Denied(tag, req, c.server) && |c.sent| == c.attempt <= MAX_ATTEMPTS
    ensures var (last, outcome) := Run(tag, req, sched, c);
            |last.sent| == n + 1 && ToldDenied(c.server, sched(n).verdict, last.server, outcome)
    decreases MAX_ATTEMPTS - c.attempt
  {
    assert QuietTurn(sched(c.attempt));
    DeniedAttempt(tag, req, sched(c.attempt), c);
    RunUnfolds(tag, req, sched, c);
    var p := Attempt(tag, req, sched(c.attempt), c);
    if p.Finished? {
      return c.attempt;
    }
    n := DeniedRun(tag, req, sched, p.call);
  }

  /**
   A state that is out of step, because others wrote or an answer was lost, overwrites nothing. A
   refresh or a destroy that finds the section gone drops the state, and else the state stays as it is:
   an update is refused, with 404 or 412, and so is a destroy.
   */
  lemma OutOfStepChangesNothing(tag: Doc -> string, sys: System, op: Op) returns (n: nat)
    requires sys.held.Some? && sys.held.value != "" && (op.Update? || op.Destroy? || op.Refresh?) && Quiet(op.sched)
    requires sys.server.content.None? || (!op.Refresh? && sys.held.value != tag(sys.server.content.value))
    ensures var after := Step(tag, sys, op);
            && after.server == sys.server
            && after.held ==
                 if sys.server.content.None? && !op.Update? && !op.sched(n).verdict.Throttle? then None else sys.held
  {
    var req := GuardedRequest(sys, op);
    n := DeniedRun(tag, req, op.sched, Fresh(sys.server, sys.now));
  }

  /**
   From any such state a quiet refresh that the server answers brings the state back in step: the ETag
   of what is there, or no state.
   */
  lemma RefreshHeals(tag: Doc -> string, sys: System, sched: Schedule) returns (n: nat)
    requires sys.held.Some? && Quiet(sched)
    ensures var after, v := Step(tag, sys, Refresh(sched)), sched(n).verdict;
            && after.server == sys.server
            && if v.Accept? || (v.Refuse? && sys.server.content.None?) then InStep(tag, after)
               else after.held == sys.held
  {
    var req, c := RequestOf(Get, "", ""), Fresh(sys.server, sys.now);
    if sys.server.content.Some? {
      n := QuietRun(tag, req, sched, c);
    } else {
      n := DeniedRun(tag, req, sched, c);
    }
    assert QuietTurn(sched(n));
  }
}
