/**
 If-Match over whole lives of a resource: creates, refreshes, updates and deletes of one Terraform
 state, with other writers before, between and during every call.
 */
module GuardedRuns {
  import opened Wrappers
  import opened Backoff
  import opened Protocol
  import ExactlyOnce

  /** The contract for ETags: never empty, and one per stored document. */
  ghost predicate Tags(tag: Doc -> string) {
    && (forall d: Doc :: tag(d) != "")
    && (forall d: Doc, e: Doc :: tag(d) == tag(e) ==> d == e)
  }

  /** The ETag belongs to some document. */
  ghost predicate Real(tag: Doc -> string, etag: string) {
    exists d: Doc :: tag(d) == etag
  }

  predicate IsGuardedVerb(verb: Verb) {
    verb == Put || verb == Patch || verb == Delete
  }

  /** A commit of ours that replaced or removed the very document that its If-Match names. */
  predicate InOrder(tag: Doc -> string, c: Commit) {
    c.own && IsGuardedVerb(c.verb) ==>
      c.guard != "" && c.before.Some? && tag(c.before.value) == c.guard
  }

  ghost predicate Sound(tag: Doc -> string, s: Server) {
    && (forall i :: 0 <= i < |s.log| ==> InOrder(tag, s.log[i]))
    && (forall k :: k in s.cache ==> Real(tag, s.cache[k].answer.etag))
  }

  /** The log grew, and every own commit that it gained is this request's. */
  predicate Grown(req: Request, log0: seq<Commit>, log: seq<Commit>) {
    && log0 <= log
    && forall i :: |log0| <= i < |log| && log[i].own ==> log[i].verb == req.verb && log[i].guard == req.ifMatch
  }

  lemma {:induction false} RivalsAreSound(tag: Doc -> string, req: Request, s: Server, rivals: seq<Option<Doc>>)
    requires Sound(tag, s)
    ensures var s' := RivalCommits(s, rivals);
            Sound(tag, s') && Grown(req, s.log, s'.log) && s'.cache == s.cache
    decreases |rivals|
  {
    if rivals != [] {
      var c := Commit(false, Put, "", s.content, rivals[0]);
      RivalsAreSound(tag, req, s.(content := rivals[0], log := s.log + [c]), rivals[1..]);
    }
  }

  lemma HandleIsSound(tag: Doc -> string, req: Request, s: Server, v: Verdict, now: int)
    requires Tags(tag) && Sound(tag, s) && (v.Refuse? ==> !IsSuccess(v.status))
    requires IsGuardedVerb(req.verb) ==> req.ifMatch != "" && req.key == ""
    requires req.verb == Get ==> req.key == ""
    ensures var (s', a) := Handle(tag, s, req, v, now);
            && Sound(tag, s') && Grown(req, s.log, s'.log)
            && (IsSuccess(a.status) && req.verb != Delete ==> Real(tag, a.etag))
  {
  }

  lemma TransmitIsSound(tag: Doc -> string, req: Request, t: Turn, s: Server, now: int)
    requires Tags(tag) && Sound(tag, s) && WellFormed(t)
    requires IsGuardedVerb(req.verb) ==> req.ifMatch != ""
    requires req.verb != Post ==> req.key == ""
    ensures var (s', reply) := Transmit(tag, s, req, t, now);
            && Sound(tag, s') && Grown(req, s.log, s'.log)
            && (reply.Full? && IsSuccess(reply.answer.status) && req.verb != Delete ==> Real(tag, reply.answer.etag))
  {
    RivalsAreSound(tag, req, s, t.rivals);
    HandleIsSound(tag, req, RivalCommits(s, t.rivals), t.verdict, now + t.arrival);
  }

  /** The client half of an attempt leaves the server alone and reports the ETag that it got. */
  lemma ResolveReports(req: Request, reply: Reply, t: Turn, c: Call)
    ensures var p := Resolve(req, reply, t, c);
            && p.call.server == c.server && p.call.sent == c.sent
            && (p.Finished? && p.outcome.Success? ==>
                reply.Full? && IsSuccess(reply.answer.status) && p.outcome.etag == reply.answer.etag)
  {
  }

  lemma AttemptIsSound(tag: Doc -> string, req: Request, t: Turn, c: Call)
    requires Tags(tag) && Sound(tag, c.server) && WellFormed(t)
    requires IsGuardedVerb(req.verb) ==> req.ifMatch != ""
    requires req.verb != Post ==> req.key == ""
    ensures var p := Attempt(tag, req, t, c);
            && Sound(tag, p.call.server) && Grown(req, c.server.log, p.call.server.log)
            && (p.Finished? && p.outcome.Success? && req.verb != Delete ==> Real(tag, p.outcome.etag))
  {
    var (s, reply) := Transmit(tag, c.server, req, t, c.now);
    TransmitIsSound(tag, req, t, c.server, c.now);
    ResolveReports(req, reply, t, c.(now := c.now + t.reply, sent := c.sent + [c.now], server := s));
  }

  lemma {:induction false} RunIsSound(tag: Doc -> string, req: Request, sched: Schedule, c: Call)
    requires Tags(tag) && Sound(tag, c.server) && WellFormedSchedule(sched) && c.attempt <= MAX_ATTEMPTS
    requires IsGuardedVerb(req.verb) ==> req.ifMatch != ""
    requires req.verb != Post ==> req.key == ""
    ensures var (last, outcome) := Run(tag, req, sched, c);
            && Sound(tag, last.server) && Grown(req, c.server.log, last.server.log)
            && (outcome.Success? && req.verb != Delete ==> Real(tag, outcome.etag))
    decreases MAX_ATTEMPTS - c.attempt
  {
    var t := sched(c.attempt);
    assert WellFormed(t);
    AttemptIsSound(tag, req, t, c);
    RunUnfolds(tag, req, sched, c);
    var p := Attempt(tag, req, t, c);
    if p.Again? {
      RunIsSound(tag, req, sched, p.call);
    }
  }

  // ------------------------------------------------------------- whole runs

  /** What the Terraform workflow does next, or what others do to the router meanwhile. */
  datatype Op =
    | Create(newKey: string, sched: Schedule)
    | Refresh(sched: Schedule)
    | Update(patch: bool, sched: Schedule)
    | Destroy(sched: Schedule)
    | Meanwhile(rivals: seq<Option<Doc>>)

  /** The router, the clock, and the ETag in the state while the resource is in it. */
  datatype System = System(server: Server, now: int, held: Option<string>)

  function Call0(tag: Doc -> string, sys: System, verb: Verb, ifMatch: string, newKey: string,
                 sched: Schedule): (System, Outcome) {
    var (last, outcome) := Run(tag, RequestOf(verb, ifMatch, newKey), sched, Fresh(sys.server, sys.now));
    (System(last.server, last.now, sys.held), outcome)
  }

  /** The CRUD methods of a generated collection resource, as far as the ETag goes. */
  function Step(tag: Doc -> string, sys: System, op: Op): System {
    match op
    case Meanwhile(rivals) => sys.(server := RivalCommits(sys.server, rivals))
    case Create(newKey, sched) =>
      if sys.held.Some? then sys
      else
        var (sys1, outcome) := Call0(tag, sys, Post, "", newKey, sched);
        if outcome.Success? then sys1.(held := Some(outcome.etag)) else sys1
    case Refresh(sched) =>
      if sys.held.None? then sys
      else
        var (sys1, outcome) := Call0(tag, sys, Get, "", "", sched);
        if outcome.Success? then sys1.(held := Some(outcome.etag))
        else if outcome.ApiError? && outcome.status == 404 then sys1.(held := None)
        else sys1
    case Update(patch, sched) =>
      if sys.held.None? then sys
      else
        var (sys1, outcome) := Call0(tag, sys, if patch then Patch else Put, sys.held.value, "", sched);
        if outcome.Success? then sys1.(held := Some(outcome.etag)) else sys1
    case Destroy(sched) =>
      if sys.held.None? then sys
      else
        var (sys1, outcome) := Call0(tag, sys, Delete, sys.held.value, "", sched);
        if outcome.Success? || (outcome.ApiError? && outcome.status == 404) then sys1.(held := None) else sys1
  }

  function Steps(tag: Doc -> string, sys: System, ops: seq<Op>): System
    decreases |ops|
  {
    if ops == [] then sys else Steps(tag, Step(tag, sys, ops[0]), ops[1..])
  }

  ghost predicate WellFormedOp(op: Op) {
    op.Meanwhile? || WellFormedSchedule(op.sched)
  }

  ghost predicate SystemInvariant(tag: Doc -> string, sys: System) {
    Sound(tag, sys.server) && (sys.held.Some? ==> Real(tag, sys.held.value))
  }

  lemma StepIsSound(tag: Doc -> string, sys: System, op: Op)
    requires Tags(tag) && SystemInvariant(tag, sys) && WellFormedOp(op)
    ensures SystemInvariant(tag, Step(tag, sys, op))
  {
    match op {
      case Meanwhile(rivals) => RivalsAreSound(tag, Request(Get, "", ""), sys.server, rivals);
      case Create(newKey, sched) => RunIsSound(tag, RequestOf(Post, "", newKey), sched, Fresh(sys.server, sys.now));
      case Refresh(sched) => RunIsSound(tag, RequestOf(Get, "", ""), sched, Fresh(sys.server, sys.now));
      case Update(patch, sched) =>
        if sys.held.Some? {
          RunIsSound(tag, RequestOf(if patch then Patch else Put, sys.held.value, ""), sched,
            Fresh(sys.server, sys.now));
        }
      case Destroy(sched) =>
        if sys.held.Some? {
          RunIsSound(tag, RequestOf(Delete, sys.held.value, ""), sched, Fresh(sys.server, sys.now));
        }
    }
  }

  /**
   Over every run with other writers anywhere, each update or delete that the provider committed
   replaced exactly the document whose ETag it had sent, and that ETag was not empty.
   */
  lemma {:induction false} NoLostUpdate(tag: Doc -> string, sys: System, ops: seq<Op>)
    requires Tags(tag) && SystemInvariant(tag, sys)
    requires forall i :: 0 <= i < |ops| ==> WellFormedOp(ops[i])
    ensures SystemInvariant(tag, Steps(tag, sys, ops))
    decreases |ops|
  {
    if ops != [] {
      assert WellFormedOp(ops[0]);
      StepIsSound(tag, sys, ops[0]);
      NoLostUpdate(tag, Step(tag, sys, ops[0]), ops[1..]);
    }
  }

  /**
   The ETag that an update or delete sends is the one that the state stored last: whatever it
   commits, it commits on the document with that ETag, so a change by others since then is safe.
   */
  lemma UpdateTouchesOnlyWhatWasRead(tag: Doc -> string, sys: System, op: Op, read: Doc, i: nat)
    requires Tags(tag) && SystemInvariant(tag, sys) && WellFormedOp(op)
    requires (op.Update? || op.Destroy?) && sys.held == Some(tag(read))
    requires var log := Step(tag, sys, op).server.log; |sys.server.log| <= i < |log| && log[i].own
    ensures Step(tag, sys, op).server.log[i].before == Some(read)
  {
    StepIsSound(tag, sys, op);
    var verb := if op.Destroy? then Delete else if op.patch then Patch else Put;
    var req := RequestOf(verb, sys.held.value, "");
    RunIsSound(tag, req, op.sched, Fresh(sys.server, sys.now));
    var log := Step(tag, sys, op).server.log;
    assert log == Run(tag, req, op.sched, Fresh(sys.server, sys.now)).0.server.log;
    assert InOrder(tag, log[i]);
  }

  // --------------------------------------------------------- what a 412 means

  lemma QuietTransmit(tag: Doc -> string, req: Request, t: Turn, s: Server, now: int)
    requires IsGuardedVerb(req.verb) && req.key == "" && WellFormed(t) && t.rivals == []
    requires s.content.Some? && tag(s.content.value) == req.ifMatch
    ensures var (s', reply) := Transmit(tag, s, req, t, now);
            && (reply.Full? ==> reply.answer.status != 412)
            && (reply.Full? && IsThrottled(reply.answer.status) ==> s' == s)
  {
    assert RivalCommits(s, []) == s;
  }

  lemma {:induction false} RunRefusedMeansRival(tag: Doc -> string, req: Request, sched: Schedule, c: Call)
    requires IsGuardedVerb(req.verb) && req.key == "" && WellFormedSchedule(sched)
    requires c.attempt <= MAX_ATTEMPTS && |c.sent| == c.attempt
    requires c.server.content.Some? && tag(c.server.content.value) == req.ifMatch
    ensures var (last, outcome) := Run(tag, req, sched, c);
            && |last.sent| > c.attempt
            && (outcome.ApiError? && outcome.status == 412 ==>
                exists i: nat :: c.attempt <= i < |last.sent| && sched(i).rivals != [])
    decreases MAX_ATTEMPTS - c.attempt
  {
    var t := sched(c.attempt);
    assert WellFormed(t);
    RunUnfolds(tag, req, sched, c);
    SentGrows(tag, req, sched, c);
    if t.rivals == [] {
      QuietTransmit(tag, req, t, c.server, c.now);
      var p := Attempt(tag, req, t, c);
      if p.Again? {
        RunRefusedMeansRival(tag, req, sched, p.call);
      }
    }
  }

  lemma {:induction false} SentGrows(tag: Doc -> string, req: Request, sched: Schedule, c: Call)
    requires c.attempt <= MAX_ATTEMPTS && |c.sent| == c.attempt
    ensures |Run(tag, req, sched, c).0.sent| > c.attempt
    decreases MAX_ATTEMPTS - c.attempt
  {
    RunUnfolds(tag, req, sched, c);
    var p := Attempt(tag, req, sched(c.attempt), c);
    if p.Again? {
      SentGrows(tag, req, sched, p.call);
    }
  }

  /**
   A 412 from a call whose ETag was current when it started means that another writer committed
   before one of its attempts, and that no attempt of its own did.
   */
  lemma RefusedMeansRival(tag: Doc -> string, verb: Verb, sched: Schedule, s: Server, now: int)
    requires IsGuardedVerb(verb) && WellFormedSchedule(sched) && s.content.Some?
    ensures var (last, outcome) := Run(tag, RequestOf(verb, tag(s.content.value), ""), sched, Fresh(s, now));
            outcome.ApiError? && outcome.status == 412 ==>
              && (exists i: nat :: i < |last.sent| && sched(i).rivals != [])
              && ExactlyOnce.Own(last.server.log) == ExactlyOnce.Own(s.log)
  {
    RunRefusedMeansRival(tag, RequestOf(verb, tag(s.content.value), ""), sched, Fresh(s, now));
    ExactlyOnce.DoCommitsOnce(tag, verb, tag(s.content.value), "", sched, 0, s, now);
  }
}
