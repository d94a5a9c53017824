/**
 Whole lives of a scoped resource: applies of any accepted configurations, refreshes, imports, and
 edits by others, including switches to values of the discriminator that uapi does not model.
 */
module Lifecycle {
  import opened Wrappers
  import opened Apply
  import opened Codec
  import opened Converge
  import opened FieldScope
  import opened Json
  import opened Patch
  import opened Router
  import opened Schema

  /** The ETag of a document. It differs for different documents, so the document itself can stand for it. */
  type ETag = Fields

  /** The state, the ETag in it, and what the router holds. */
  datatype System = System(state: Option<Model>, etag: ETag, router: Option<Fields>)

  /** `valid` is what every other validation of uapi says about the request of an apply. */
  datatype Event = Apply(config: Model, valid: bool) | Refresh | Import | Edit(opts: Option<Fields>)

  function Nothing(attrs: Attributes): Model {
    map k | k in attrs :: Null
  }

  function ReadInto(c: Contract, scope: Scope, attrs: Attributes, opts: Fields, m: Model): System {
    System(Some(ReadBack(attrs, View(c, attrs, Discriminator(scope.field, opts), opts), m)), opts, Some(opts))
  }

  /** The server's answer to a POST or PUT: refused for its scope, or stored and read back. */
  function Replace(c: Contract, scope: Scope, attrs: Attributes, sys: System, plan: Model, create: bool): System {
    var body := Body(attrs, plan, create);
    if GateAccepts(scope, body) && ScopeAccepts(c, Discriminator(scope.field, body), body)
    then ReadInto(c, scope, attrs, Stored(body), plan)
    else sys
  }

  predicate TakesPatch(c: Contract, scope: Scope, v: string, patch: Fields) {
    GateAccepts(scope, patch) && ScopeAccepts(c, v, patch)
  }

  function Merged(c: Contract, scope: Scope, attrs: Attributes, m: Model, plan: Model, opts: Fields): System {
    ReadInto(c, scope, attrs, PatchedOptions(attrs, m, plan, opts), plan)
  }

  function MergeInto(c: Contract, scope: Scope, attrs: Attributes, sys: System, m: Model, plan: Model,
                     opts: Fields): System {
    if TakesPatch(c, scope, Discriminator(scope.field, opts), PatchBody(attrs, m, plan))
    then Merged(c, scope, attrs, m, plan, opts)
    else sys
  }

  /** Create or Update with this plan; an update of what is gone or has another ETag changes nothing. */
  function Write(c: Contract, scope: Scope, attrs: Attributes, sys: System, plan: Model): System {
    match sys.state
    case None => Replace(c, scope, attrs, sys, plan, true)
    case Some(m) =>
      if sys.router != Some(sys.etag) then sys
      else if scope.Patches(Get(plan, scope.field), Get(m, scope.field)) then
        MergeInto(c, scope, attrs, sys, m, plan, sys.etag)
      else Replace(c, scope, attrs, sys, plan, false)
  }

  /** Terraform calls no write for a plan that is the state, and the ETag is planned known then. */
  predicate Idle(attrs: Attributes, state: Option<Model>, config: Model, plan: Model) {
    state == Some(plan) && !Marks(attrs, state, config)
  }

  function Next(c: Contract, scope: Scope, attrs: Attributes, sys: System, e: Event): System {
    match e
    case Apply(config, valid) =>
      var plan := FullPlan(scope, attrs, sys.state, config);
      if Idle(attrs, sys.state, config, plan) || !valid then sys else Write(c, scope, attrs, sys, plan)
    case Edit(opts) => sys.(router := opts)
    case Refresh =>
      if sys.state.None? then sys
      else if sys.router.None? then sys.(state := None)
      else ReadInto(c, scope, attrs, sys.router.value, sys.state.value)
    case Import =>
      if sys.state.Some? || sys.router.None? then sys
      else ReadInto(c, scope, attrs, sys.router.value, Nothing(attrs))
  }

  function Run(c: Contract, scope: Scope, attrs: Attributes, sys: System, events: seq<Event>): System
    decreases |events|
  {
    if events == [] then sys
    else Next(c, scope, attrs, Run(c, scope, attrs, sys, events[..|events| - 1]), events[|events| - 1])
  }

  lemma RunSnoc(c: Contract, scope: Scope, attrs: Attributes, sys: System, events: seq<Event>, e: Event)
    ensures Run(c, scope, attrs, sys, events + [e]) == Next(c, scope, attrs, Run(c, scope, attrs, sys, events), e)
  {
    assert (events + [e])[..|events|] == events;
  }

  predicate GoodOptions(scope: Scope, attrs: Attributes, opts: Fields) {
    Sane(attrs, opts) && Member(opts, scope.field).JStr?
  }

  predicate GoodEvent(scope: Scope, attrs: Attributes, e: Event) {
    match e
    case Apply(config, _) => GoodConfig(scope, attrs, config)
    case Edit(opts) => opts.Some? ==> GoodOptions(scope, attrs, opts.value)
    case _ => true
  }

  /** The tables only name values that uapi models, and the contract above. */
  ghost predicate Setting(c: Contract, scope: Scope, attrs: Attributes) {
    && Fits(scope, attrs) && WellBehaved(c, scope, attrs)
    && forall v :: v !in scope.known ==> scope.Excluded(v) == []
  }

  /** The state is settled, and is what a read of the document whose ETag it holds gives. */
  predicate Holds(c: Contract, scope: Scope, attrs: Attributes, m: Model, etag: ETag) {
    && Settled(c, scope, attrs, m) && HeldOver(attrs, m) && GoodOptions(scope, attrs, etag)
    && var v := Discriminator(scope.field, etag);
    && Get(m, scope.field) == Str(v)
    && Agrees(c, attrs, v, etag, m)
  }

  predicate Invariant(c: Contract, scope: Scope, attrs: Attributes, sys: System) {
    && (sys.state.Some? ==> Holds(c, scope, attrs, sys.state.value, sys.etag))
    && (sys.router.Some? ==> GoodOptions(scope, attrs, sys.router.value))
  }

  lemma ReadTwice(a: Attribute, obj: Fields, k: string, prior: Value)
    ensures ReadOne(a, obj, k, ReadOne(a, obj, k, prior)) == ReadOne(a, obj, k, prior)
  {
  }

  lemma ReadKeepsInvariant(c: Contract, scope: Scope, attrs: Attributes, opts: Fields, m: Model)
    requires Setting(c, scope, attrs) && GoodOptions(scope, attrs, opts) && HeldOver(attrs, m)
    ensures Invariant(c, scope, attrs, ReadInto(c, scope, attrs, opts, m))
  {
    var v := Discriminator(scope.field, opts);
    var obj := View(c, attrs, v, opts);
    var after := ReadBack(attrs, obj, m);
    RefreshSettles(c, scope, attrs, v, opts, m);
    forall k | k in attrs && Schema.Read(attrs[k].kind)
      ensures after[k] == ReadOne(attrs[k], obj, k, after[k])
    {
      ReadTwice(attrs[k], obj, k, m[k]);
    }
  }

  lemma StoredNamesDiscriminator(scope: Scope, v: string, body: Fields)
    requires AskedOnly(scope, v, body) && v != ""
    ensures Discriminator(scope.field, body) == v && Member(Stored(body), scope.field) == JStr(v)
  {
    assert Storable(JStr(v));
  }

  lemma StoredBodyIsGood(scope: Scope, attrs: Attributes, state: Option<Model>, config: Model, plan: Model,
                         create: bool)
    requires Fits(scope, attrs) && GoodConfig(scope, attrs, config) && IsPlan(scope, attrs, state, config, plan)
    requires forall k :: k in attrs && Sent(attrs[k].kind) ==> Typed(CodingOf(attrs[k]), Get(plan, k))
    ensures GoodOptions(scope, attrs, Stored(Body(attrs, plan, create)))
  {
    StoredBodyIsSane(attrs, plan, create);
    ReplaceBodyAsksOnly(scope, attrs, state, config, create, plan);
    StoredNamesDiscriminator(scope, Get(config, scope.field).text, Body(attrs, plan, create));
  }

  lemma ReplaceKeepsInvariant(c: Contract, scope: Scope, attrs: Attributes, sys: System, config: Model, plan: Model,
                              create: bool)
    requires Setting(c, scope, attrs) && Invariant(c, scope, attrs, sys) && GoodConfig(scope, attrs, config)
    requires IsPlan(scope, attrs, sys.state, config, plan)
    ensures Invariant(c, scope, attrs, Replace(c, scope, attrs, sys, plan, create))
  {
    PlanIsTyped(c, scope, attrs, sys.state, config, plan);
    StoredBodyIsGood(scope, attrs, sys.state, config, plan, create);
    ReadKeepsInvariant(c, scope, attrs, Stored(Body(attrs, plan, create)), plan);
  }

  lemma MergeKeepsInvariant(c: Contract, scope: Scope, attrs: Attributes, sys: System, config: Model, plan: Model)
    requires Setting(c, scope, attrs) && Invariant(c, scope, attrs, sys) && GoodConfig(scope, attrs, config)
    requires sys.state.Some? && IsPlan(scope, attrs, sys.state, config, plan)
    requires scope.Patches(Get(plan, scope.field), Get(sys.state.value, scope.field))
    ensures Invariant(c, scope, attrs, MergeInto(c, scope, attrs, sys, sys.state.value, plan, sys.etag))
  {
    var m, opts := sys.state.value, sys.etag;
    ScopedPatchIsReady(c, scope, attrs, m, config, plan);
    PlanIsTyped(c, scope, attrs, sys.state, config, plan);
    PatchedIsSane(attrs, m, plan, opts);
    PatchNamesChanges(attrs, m, plan, scope.field);
    PatchedOption(attrs, m, plan, opts, scope.field);
    ReadKeepsInvariant(c, scope, attrs, PatchedOptions(attrs, m, plan, opts), plan);
  }

  lemma WriteKeepsInvariant(c: Contract, scope: Scope, attrs: Attributes, sys: System, config: Model, plan: Model)
    requires Setting(c, scope, attrs) && Invariant(c, scope, attrs, sys) && GoodConfig(scope, attrs, config)
    requires IsPlan(scope, attrs, sys.state, config, plan)
    ensures Invariant(c, scope, attrs, Write(c, scope, attrs, sys, plan))
  {
    if !CanWrite(sys) {
    } else if sys.state.Some? && scope.Patches(Get(plan, scope.field), Get(sys.state.value, scope.field)) {
      MergeKeepsInvariant(c, scope, attrs, sys, config, plan);
    } else {
      ReplaceKeepsInvariant(c, scope, attrs, sys, config, plan, sys.state.None?);
    }
  }

  lemma NextKeepsInvariant(c: Contract, scope: Scope, attrs: Attributes, sys: System, e: Event)
    requires Setting(c, scope, attrs) && Invariant(c, scope, attrs, sys) && GoodEvent(scope, attrs, e)
    ensures Invariant(c, scope, attrs, Next(c, scope, attrs, sys, e))
  {
    match e {
      case Edit(opts) =>
      case Refresh =>
        if sys.state.Some? && sys.router.Some? {
          ReadKeepsInvariant(c, scope, attrs, sys.router.value, sys.state.value);
        }
      case Import =>
        if sys.state.None? && sys.router.Some? {
          ReadKeepsInvariant(c, scope, attrs, sys.router.value, Nothing(attrs));
        }
      case Apply(config, _) =>
        FullPlanIsPlan(scope, attrs, sys.state, config);
        WriteKeepsInvariant(c, scope, attrs, sys, config, FullPlan(scope, attrs, sys.state, config));
    }
  }

  predicate GoodEvents(scope: Scope, attrs: Attributes, events: seq<Event>) {
    forall i :: 0 <= i < |events| ==> GoodEvent(scope, attrs, events[i])
  }

  lemma {:induction false} RunKeepsInvariant(c: Contract, scope: Scope, attrs: Attributes, sys: System,
                                             events: seq<Event>)
    requires Setting(c, scope, attrs) && Invariant(c, scope, attrs, sys) && GoodEvents(scope, attrs, events)
    ensures Invariant(c, scope, attrs, Run(c, scope, attrs, sys, events))
    decreases |events|
  {
    if events != [] {
      var front := events[..|events| - 1];
      assert forall i :: 0 <= i < |front| ==> front[i] == events[i];
      RunKeepsInvariant(c, scope, attrs, sys, front);
      NextKeepsInvariant(c, scope, attrs, Run(c, scope, attrs, sys, front), events[|events| - 1]);
    }
  }

  // ------------------------------------------------------------ what an apply does

  /** The apply may write: there is nothing in the state yet, or the router still has the ETag in it. */
  predicate CanWrite(sys: System) {
    sys.state.None? || sys.router == Some(sys.etag)
  }

  /**
   An apply never overwrites what the state has not read: when the section is gone or holds another
   document than the one whose ETag the state holds, nothing changes. So an apply that changes the
   router found no state, or replaced the very document that the state was read from.
   */
  lemma ApplyOverwritesOnlyWhatWasRead(c: Contract, scope: Scope, attrs: Attributes, sys: System, events: seq<Event>,
                                       config: Model, valid: bool)
    requires sys.state.None?
    ensures var now := Run(c, scope, attrs, sys, events);
            var after := Next(c, scope, attrs, now, Apply(config, valid));
            && (!CanWrite(now) ==> after == now)
            && (after.router != now.router && now.state.Some? ==>
                  now.router == Some(now.etag) && SeenBefore(c, scope, attrs, sys, events, now))
  {
    var now := Run(c, scope, attrs, sys, events);
    if now.state.Some? {
      StateWasRead(c, scope, attrs, sys, events);
    }
  }

  /** At some point of the run the router held the document whose ETag is in the state, and the state was as now. */
  ghost predicate SeenBefore(c: Contract, scope: Scope, attrs: Attributes, sys: System, events: seq<Event>,
                             now: System) {
    exists j: nat :: j <= |events| && SeenAt(c, scope, attrs, sys, events, now, j)
  }

  predicate SeenAt(c: Contract, scope: Scope, attrs: Attributes, sys: System, events: seq<Event>, now: System, j: nat)
    requires j <= |events|
  {
    Run(c, scope, attrs, sys, events[..j]) == System(now.state, now.etag, Some(now.etag))
  }

  /** A step keeps the state with its ETag, drops it, or takes both from what the router then holds. */
  lemma StepReads(c: Contract, scope: Scope, attrs: Attributes, sys: System, e: Event)
    ensures var after := Next(c, scope, attrs, sys, e);
            after.state.None? || (after.state == sys.state && after.etag == sys.etag)
              || after.router == Some(after.etag)
  {
  }

  lemma {:induction false} StateWasRead(c: Contract, scope: Scope, attrs: Attributes, sys: System, events: seq<Event>)
    requires sys.state.None? && Run(c, scope, attrs, sys, events).state.Some?
    ensures SeenBefore(c, scope, attrs, sys, events, Run(c, scope, attrs, sys, events))
    decreases |events|
  {
    var n := |events| - 1;
    var now := Run(c, scope, attrs, sys, events);
    var was := Run(c, scope, attrs, sys, events[..n]);
    StepReads(c, scope, attrs, was, events[n]);
    if now.router == Some(now.etag) {
      assert events[..|events|] == events;
      assert SeenAt(c, scope, attrs, sys, events, now, |events|);
    } else {
      StateWasRead(c, scope, attrs, sys, events[..n]);
      var j: nat :| j <= n && SeenAt(c, scope, attrs, sys, events[..n], was, j);
      assert events[..n][..j] == events[..j];
      assert SeenAt(c, scope, attrs, sys, events, now, j);
    }
  }

  /** Whether a refresh or an import asks the router: the one with a state, the other without. */
  predicate Reads(sys: System, e: Event) {
    (e.Refresh? && sys.state.Some?) || (e.Import? && sys.state.None?)
  }

  /**
   What a refresh and an import come to at every point of every run: the router stays as it is, a section
   that is gone leaves no state behind, and one that is there leaves a settled state with its ETag, so
   that the next apply may write. An import into a state that is there changes nothing.
   */
  lemma ReadsTellTheTruth(c: Contract, scope: Scope, attrs: Attributes, sys: System, events: seq<Event>, e: Event)
    requires Setting(c, scope, attrs) && Invariant(c, scope, attrs, sys) && GoodEvents(scope, attrs, events)
    requires e.Refresh? || e.Import?
    ensures var now := Run(c, scope, attrs, sys, events);
            var after := Next(c, scope, attrs, now, e);
            && after.router == now.router
            && (e.Import? && now.state.Some? ==> after == now)
            && (Reads(now, e) ==> after.state.Some? == now.router.Some?)
            && (Reads(now, e) && after.state.Some? ==> now.router == Some(after.etag) && CanWrite(after))
            && (after.state.Some? ==> Holds(c, scope, attrs, after.state.value, after.etag))
            && (e.Refresh? && now.state.None? ==> after.state.None?)
  {
    RunKeepsInvariant(c, scope, attrs, sys, events);
    NextKeepsInvariant(c, scope, attrs, Run(c, scope, attrs, sys, events), e);
  }

  /** The write was stored and read, and the same configuration plans that very state next. */
  predicate Converged(scope: Scope, attrs: Attributes, config: Model, after: System) {
    && after.state.Some? && after.router == Some(after.etag)
    && IsPlan(scope, attrs, after.state, config, after.state.value)
    && !Marks(attrs, after.state, config)
  }

  /** The planned ETag: unknown while Terraform proposes a change, the old one otherwise. */
  function PlannedTag(attrs: Attributes, sys: System, config: Model): Option<ETag> {
    if Marks(attrs, sys.state, config) then None else Some(sys.etag)
  }

  /** The plan has no change: every attribute and the ETag are planned as the state has them. */
  predicate NothingPlanned(attrs: Attributes, sys: System, config: Model, plan: Model) {
    sys.state == Some(plan) && PlannedTag(attrs, sys, config) == Some(sys.etag)
  }

  /** Terraform accepts the result: every attribute that was planned known is as planned, the ETag included. */
  predicate Accepted(attrs: Attributes, plan: Model, tag: Option<ETag>, after: System) {
    && after.state.Some? && Consistent(attrs, plan, after.state.value)
    && (tag.Some? ==> after.etag == tag.value)
  }

  /** After a write that converged, the plan is empty and a second apply does nothing. */
  lemma ConvergedPlansNothing(c: Contract, scope: Scope, attrs: Attributes, config: Model, valid: bool,
                              after: System)
    requires Fits(scope, attrs) && GoodConfig(scope, attrs, config) && Converged(scope, attrs, config, after)
    ensures FullPlan(scope, attrs, after.state, config) == after.state.value
    ensures Next(c, scope, attrs, after, Apply(config, valid)) == after
  {
    FullPlanIsPlan(scope, attrs, after.state, config);
    PlansAgree(scope, attrs, after.state, config, after.state.value, FullPlan(scope, attrs, after.state, config));
  }

  /** A POST or PUT of a modelled value is never refused for its scope. */
  lemma ReplaceIsStored(c: Contract, scope: Scope, attrs: Attributes, sys: System, config: Model, plan: Model,
                        create: bool)
    requires Setting(c, scope, attrs) && GoodConfig(scope, attrs, config)
    requires Get(config, scope.field).text in scope.known && IsPlan(scope, attrs, sys.state, config, plan)
    ensures var body, v := Body(attrs, plan, create), Get(config, scope.field).text;
            && Discriminator(scope.field, Stored(body)) == v
            && Replace(c, scope, attrs, sys, plan, create) == ReadInto(c, scope, attrs, Stored(body), plan)
            && Replace(c, scope, attrs, sys, plan, create).state == Some(AfterReplace(c, attrs, v, body, plan))
  {
    var v := Get(config, scope.field).text;
    ReplaceBodyAsksOnly(scope, attrs, sys.state, config, create, plan);
    AskedIsAccepted(c, scope, attrs, v, plan, create);
    StoredNamesDiscriminator(scope, v, Body(attrs, plan, create));
  }

  lemma ReplaceConvergedIff(c: Contract, scope: Scope, attrs: Attributes, sys: System, config: Model, plan: Model,
                            create: bool)
    requires Setting(c, scope, attrs) && Invariant(c, scope, attrs, sys) && GoodConfig(scope, attrs, config)
    requires Get(config, scope.field).text in scope.known && IsPlan(scope, attrs, sys.state, config, plan)
    ensures Converged(scope, attrs, config, Replace(c, scope, attrs, sys, plan, create)) <==> ValuesHold(attrs, config)
  {
    ReplaceIsStored(c, scope, attrs, sys, config, plan, create);
    ReplacedIsPlanIff(c, scope, attrs, sys.state, config, create, plan);
  }

  /** A read-only attribute is planned known only when Terraform proposes no change. */
  lemma ReadOnlyPlan(scope: Scope, attrs: Attributes, state: Option<Model>, config: Model, k: string)
    requires Fits(scope, attrs) && GoodConfig(scope, attrs, config) && k in attrs && !Writable(attrs[k].kind)
    ensures PlanOf(scope, attrs, state, config, k)
         == if Marks(attrs, state, config) then Unknown else Get(state.value, k)
  {
    ScopedMembers(scope.rules, Get(config, scope.field).text, k);
    if state.Some? && Get(state.value, scope.field).Str? {
      ScopedMembers(scope.rules, Get(state.value, scope.field).text, k);
    }
  }

  lemma HeldReadsTheSame(c: Contract, scope: Scope, attrs: Attributes, m: Model, etag: ETag, plan: Model, k: string)
    requires Agrees(c, attrs, Discriminator(scope.field, etag), etag, m)
    requires k in attrs && Schema.Read(attrs[k].kind) && Get(plan, k) == Get(m, k)
    ensures ReadInto(c, scope, attrs, etag, plan).state.value[k] == m[k]
  {
  }

  /** When nothing stored changes, every attribute that the server derives stays as it was. */
  lemma UnchangedReadsTheSame(c: Contract, scope: Scope, attrs: Attributes, sys: System, config: Model, plan: Model)
    requires Fits(scope, attrs) && Invariant(c, scope, attrs, sys) && GoodConfig(scope, attrs, config)
    requires sys.state.Some? && !Marks(attrs, sys.state, config) && IsPlan(scope, attrs, sys.state, config, plan)
    ensures ReadOnlyKept(attrs, plan, ReadInto(c, scope, attrs, sys.etag, plan).state.value)
  {
    forall k | k in attrs && !Writable(attrs[k].kind)
      ensures plan[k] == sys.state.value[k] == ReadInto(c, scope, attrs, sys.etag, plan).state.value[k]
    {
      ReadOnlyPlan(scope, attrs, sys.state, config, k);
      HeldReadsTheSame(c, scope, attrs, sys.state.value, sys.etag, plan, k);
    }
  }

  lemma ReadOnlyAsPlanned(c: Contract, scope: Scope, attrs: Attributes, sys: System, config: Model, plan: Model,
                          stored: Fields)
    requires Setting(c, scope, attrs) && Invariant(c, scope, attrs, sys) && GoodConfig(scope, attrs, config)
    requires IsPlan(scope, attrs, sys.state, config, plan) && CanWrite(sys)
    requires Marks(attrs, sys.state, config) || sys.router == Some(stored)
    ensures ReadOnlyKept(attrs, plan, ReadInto(c, scope, attrs, stored, plan).state.value)
  {
    if Marks(attrs, sys.state, config) {
      forall k | k in attrs && !Writable(attrs[k].kind)
        ensures plan[k].Unknown?
      {
        ReadOnlyPlan(scope, attrs, sys.state, config, k);
      }
    } else {
      UnchangedReadsTheSame(c, scope, attrs, sys, config, plan);
    }
  }

  /**
   Terraform accepts the result of a create or a PUT exactly when every configured value is one that
   reads back, no null that the plan carries over a switch has a default, and the ETag was planned
   unknown or the stored options do not change. All three can be told before the write.
   */
  lemma ReplaceIsAcceptedIff(c: Contract, scope: Scope, attrs: Attributes, sys: System, config: Model, plan: Model)
    requires Setting(c, scope, attrs) && Invariant(c, scope, attrs, sys) && GoodConfig(scope, attrs, config)
    requires Get(config, scope.field).text in scope.known && CanWrite(sys)
        && IsPlan(scope, attrs, sys.state, config, plan)
    ensures Accepted(attrs, plan, PlannedTag(attrs, sys, config), Replace(c, scope, attrs, sys, plan, sys.state.None?))
        <==> ValuesHold(attrs, config) && NullsHold(c, scope, attrs, sys.state, config)
             && (Marks(attrs, sys.state, config) || sys.router == Some(Stored(Body(attrs, plan, sys.state.None?))))
  {
    var create := sys.state.None?;
    var stored := Stored(Body(attrs, plan, create));
    ReplaceIsStored(c, scope, attrs, sys, config, plan, create);
    ReplaceIsAsPlannedIff(c, scope, attrs, sys.state, config, create, plan);
    ConsistentIff(attrs, plan, ReadInto(c, scope, attrs, stored, plan).state.value);
    if Marks(attrs, sys.state, config) || sys.router == Some(stored) {
      ReadOnlyAsPlanned(c, scope, attrs, sys, config, plan, stored);
    }
  }

  lemma ModelledWrite(c: Contract, scope: Scope, attrs: Attributes, sys: System, config: Model, plan: Model)
    requires Setting(c, scope, attrs) && GoodConfig(scope, attrs, config)
    requires Get(config, scope.field).text in scope.known && CanWrite(sys)
        && IsPlan(scope, attrs, sys.state, config, plan)
    ensures Write(c, scope, attrs, sys, plan) == Replace(c, scope, attrs, sys, plan, sys.state.None?)
  {
    assert plan[scope.field] == config[scope.field];
  }

  /**
   What an apply that names a modelled value comes to. It does nothing when the plan is the state, and
   changes nothing when another validation refuses it. Else it is never refused for its scope: it stores
   the body, leaves nothing more to plan exactly when every configured value is one that reads back, and
   is accepted by Terraform exactly under the three conditions above.
   */
  predicate ModelledResult(c: Contract, scope: Scope, attrs: Attributes, now: System, config: Model, valid: bool,
                           after: System)
    requires Get(config, scope.field).Str?
  {
    var plan := FullPlan(scope, attrs, now.state, config);
    var stored := Stored(Body(attrs, plan, now.state.None?));
    if NothingPlanned(attrs, now, config, plan) || !valid then after == now
    else
      && after.router == Some(stored) && after.etag == stored && after.state.Some?
      && (Converged(scope, attrs, config, after) <==> ValuesHold(attrs, config))
      && (Accepted(attrs, plan, PlannedTag(attrs, now, config), after) <==>
          ValuesHold(attrs, config) && NullsHold(c, scope, attrs, now.state, config)
          && (Marks(attrs, now.state, config) || now.router == Some(stored)))
  }

  lemma ModelledNext(c: Contract, scope: Scope, attrs: Attributes, now: System, config: Model, valid: bool)
    requires Setting(c, scope, attrs) && CanWrite(now)
    requires GoodConfig(scope, attrs, config) && Get(config, scope.field).text in scope.known
    ensures var plan := FullPlan(scope, attrs, now.state, config);
            && IsPlan(scope, attrs, now.state, config, plan)
            && Next(c, scope, attrs, now, Apply(config, valid)) ==
                 if NothingPlanned(attrs, now, config, plan) || !valid then now
                 else Replace(c, scope, attrs, now, plan, now.state.None?)
  {
    FullPlanIsPlan(scope, attrs, now.state, config);
    ModelledWrite(c, scope, attrs, now, config, FullPlan(scope, attrs, now.state, config));
  }

  lemma ModelledApply(c: Contract, scope: Scope, attrs: Attributes, now: System, config: Model, valid: bool)
    requires Setting(c, scope, attrs) && Invariant(c, scope, attrs, now) && CanWrite(now)
    requires GoodConfig(scope, attrs, config) && Get(config, scope.field).text in scope.known
    ensures ModelledResult(c, scope, attrs, now, config, valid, Next(c, scope, attrs, now, Apply(config, valid)))
  {
    var plan := FullPlan(scope, attrs, now.state, config);
    ModelledNext(c, scope, attrs, now, config, valid);
    ReplaceIsStored(c, scope, attrs, now, config, plan, now.state.None?);
    ReplaceConvergedIff(c, scope, attrs, now, config, plan, now.state.None?);
    ReplaceIsAcceptedIff(c, scope, attrs, now, config, plan);
  }

  /** At every point of every run, an apply that may write and names a modelled value comes to just that. */
  lemma EveryModelledApply(c: Contract, scope: Scope, attrs: Attributes, sys: System, events: seq<Event>, config: Model,
                           valid: bool)
    requires Setting(c, scope, attrs) && Invariant(c, scope, attrs, sys) && GoodEvents(scope, attrs, events)
    requires GoodConfig(scope, attrs, config) && Get(config, scope.field).text in scope.known
    requires CanWrite(Run(c, scope, attrs, sys, events))
    ensures var now := Run(c, scope, attrs, sys, events);
            ModelledResult(c, scope, attrs, now, config, valid, Next(c, scope, attrs, now, Apply(config, valid)))
  {
    RunKeepsInvariant(c, scope, attrs, sys, events);
    ModelledApply(c, scope, attrs, Run(c, scope, attrs, sys, events), config, valid);
  }

  /** A switch that carries a null over to a default: Terraform rejects the result. */
  lemma CarriedNullIsRejected(c: Contract, scope: Scope, attrs: Attributes, sys: System, events: seq<Event>,
                              config: Model)
    requires Setting(c, scope, attrs) && Invariant(c, scope, attrs, sys) && GoodEvents(scope, attrs, events)
    requires GoodConfig(scope, attrs, config) && Get(config, scope.field).text in scope.known
    requires CanWrite(Run(c, scope, attrs, sys, events))
    requires var now := Run(c, scope, attrs, sys, events);
             && now.state.Some? && Get(now.state.value, scope.field) != Get(config, scope.field)
             && !NullsHold(c, scope, attrs, now.state, config)
    ensures var now := Run(c, scope, attrs, sys, events);
            var plan := FullPlan(scope, attrs, now.state, config);
            !Accepted(attrs, plan, PlannedTag(attrs, now, config), Next(c, scope, attrs, now, Apply(config, true)))
  {
    var now := Run(c, scope, attrs, sys, events);
    EveryModelledApply(c, scope, attrs, sys, events, config, true);
    FullPlanIs(scope, attrs, now.state, config, scope.field);
  }

  lemma NoSwitchKeepsNulls(c: Contract, scope: Scope, attrs: Attributes, m: Model, config: Model)
    requires Fits(scope, attrs) && GoodConfig(scope, attrs, config) && m.Keys == attrs.Keys
        && !Marks(attrs, Some(m), config)
    ensures NullsHold(c, scope, attrs, Some(m), config)
  {
    assert ProposedNew(attrs, Some(m), config)[scope.field] == m[scope.field];
  }

  /** When nothing is proposed, the configured values are the state's, and those read back. */
  lemma NothingProposedKeepsValues(c: Contract, scope: Scope, attrs: Attributes, m: Model, config: Model)
    requires Settled(c, scope, attrs, m) && !Marks(attrs, Some(m), config)
    ensures ValuesHold(attrs, config)
  {
    forall k | k in attrs
      ensures ValueHolds(attrs[k], Get(config, k))
    {
      assert ProposedNew(attrs, Some(m), config)[k] == m[k];
      assert SettledOne(c, attrs[k], Get(m, scope.field).text, k, m[k]);
    }
  }

  /**
   An update that only the hook causes plans the old ETag, so Terraform accepts its result exactly when
   the router held just what the body stores: an option that the PUT drops changes the ETag.
   */
  lemma HookAloneIsAcceptedIff(c: Contract, scope: Scope, attrs: Attributes, sys: System, config: Model)
    requires Setting(c, scope, attrs) && Invariant(c, scope, attrs, sys) && GoodConfig(scope, attrs, config)
    requires Get(config, scope.field).text in scope.known && sys.state.Some? && CanWrite(sys)
    requires !Marks(attrs, sys.state, config) && FullPlan(scope, attrs, sys.state, config) != sys.state.value
    ensures var plan := FullPlan(scope, attrs, sys.state, config);
            Accepted(attrs, plan, PlannedTag(attrs, sys, config), Next(c, scope, attrs, sys, Apply(config, true)))
            <==> sys.etag == Stored(Body(attrs, plan, false))
  {
    assert Run(c, scope, attrs, sys, []) == sys;
    EveryModelledApply(c, scope, attrs, sys, [], config, true);
    NoSwitchKeepsNulls(c, scope, attrs, sys.state.value, config);
    NothingProposedKeepsValues(c, scope, attrs, sys.state.value, config);
  }

  // ------------------------------------------------- values that uapi does not model

  /** The options that the resource does not model are the same before and after. */
  ghost predicate KeepsUnmodelled(attrs: Attributes, before: Fields, after: Fields) {
    forall k :: k !in attrs ==> (k in after <==> k in before) && (k in before ==> after[k] == before[k])
  }

  /** Where no rule applies, a plan that proposes nothing is the state. */
  lemma NothingProposedIsIdle(scope: Scope, attrs: Attributes, m: Model, config: Model, plan: Model)
    requires Fits(scope, attrs) && GoodConfig(scope, attrs, config) && IsPlan(scope, attrs, Some(m), config, plan)
    requires m.Keys == attrs.Keys && !Marks(attrs, Some(m), config)
    requires scope.Excluded(Get(config, scope.field).text) == []
    ensures plan == m
  {
    forall k | k in attrs
      ensures plan[k] == m[k]
    {
      assert ProposedNew(attrs, Some(m), config)[k] == m[k];
      assert ProposedNew(attrs, Some(m), config)[scope.field] == m[scope.field];
    }
  }

  lemma PatchKeepsDiscriminator(scope: Scope, attrs: Attributes, m: Model, plan: Model, opts: Fields)
    requires PatchReady(attrs, m, plan) && Sane(attrs, opts)
    requires scope.field in attrs && Sent(attrs[scope.field].kind) && plan[scope.field] == Get(m, scope.field)
    ensures Member(PatchedOptions(attrs, m, plan, opts), scope.field) == Member(opts, scope.field)
  {
    PatchNamesChanges(attrs, m, plan, scope.field);
    PatchedOption(attrs, m, plan, opts, scope.field);
  }

  /** The planned values read back exactly when the configured ones do: the others are the state's. */
  lemma PlannedValuesHoldIff(c: Contract, scope: Scope, attrs: Attributes, m: Model, config: Model, plan: Model)
    requires GoodConfig(scope, attrs, config) && Settled(c, scope, attrs, m)
    requires IsPlan(scope, attrs, Some(m), config, plan)
    ensures ValuesHold(attrs, plan) <==> ValuesHold(attrs, config)
  {
    forall k | k in attrs
      ensures ValueHolds(attrs[k], plan[k]) <==> ValueHolds(attrs[k], config[k])
    {
      if Sent(attrs[k].kind) {
        PlannedOne(c, scope, attrs, Some(m), config, k);
      }
    }
  }

  lemma MergeIsAsPlannedIff(c: Contract, scope: Scope, attrs: Attributes, sys: System, config: Model, plan: Model)
    requires Setting(c, scope, attrs) && Invariant(c, scope, attrs, sys) && GoodConfig(scope, attrs, config)
    requires sys.state.Some? && IsPlan(scope, attrs, sys.state, config, plan)
    requires scope.Patches(Get(plan, scope.field), Get(sys.state.value, scope.field))
    requires ScopeAccepts(c, Discriminator(scope.field, sys.etag), PatchBody(attrs, sys.state.value, plan))
    ensures var after := Merged(c, scope, attrs, sys.state.value, plan, sys.etag);
            && (AsPlanned(attrs, plan, after.state.value) <==> ValuesHold(attrs, config))
            && KeepsUnmodelled(attrs, sys.etag, after.etag)
  {
    var m, opts := sys.state.value, sys.etag;
    ScopedPatchIsReady(c, scope, attrs, m, config, plan);
    PatchIsAsPlannedIff(c, attrs, Discriminator(scope.field, opts), opts, m, plan);
    PatchKeepsDiscriminator(scope, attrs, m, plan, opts);
    PlannedValuesHoldIff(c, scope, attrs, m, config, plan);
  }

  /** A read of a stored document converges exactly when it is as planned, and is accepted then. */
  lemma ReadIsAcceptedIff(c: Contract, scope: Scope, attrs: Attributes, sys: System, config: Model, plan: Model,
                          opts: Fields)
    requires Fits(scope, attrs) && GoodConfig(scope, attrs, config) && IsPlan(scope, attrs, sys.state, config, plan)
    requires Marks(attrs, sys.state, config) && Invariant(c, scope, attrs, ReadInto(c, scope, attrs, opts, plan))
    requires AsPlanned(attrs, plan, ReadInto(c, scope, attrs, opts, plan).state.value) <==> ValuesHold(attrs, config)
    ensures var after := ReadInto(c, scope, attrs, opts, plan);
            && (Accepted(attrs, plan, None, after) <==> ValuesHold(attrs, config))
            && (Converged(scope, attrs, config, after) <==> ValuesHold(attrs, config))
  {
    var after := ReadInto(c, scope, attrs, opts, plan);
    forall k | k in attrs && !Writable(attrs[k].kind)
      ensures plan[k].Unknown?
    {
      ReadOnlyPlan(scope, attrs, sys.state, config, k);
    }
    MarkedPlanIsConsistentIff(attrs, plan, after.state.value);
    if ValuesHold(attrs, config) {
      AsPlannedTakesOver(scope, attrs, config, plan, after.state.value);
      TakenOverConverges(scope, attrs, sys.state, config, plan, after.state.value);
    }
    if Converged(scope, attrs, config, after) {
      OwnPlanNeedsValues(c, scope, attrs, config, after.state.value);
    }
  }

  lemma MergeIsAcceptedIff(c: Contract, scope: Scope, attrs: Attributes, sys: System, config: Model, plan: Model)
    requires Setting(c, scope, attrs) && Invariant(c, scope, attrs, sys) && GoodConfig(scope, attrs, config)
    requires sys.state.Some? && IsPlan(scope, attrs, sys.state, config, plan) && Marks(attrs, sys.state, config)
    requires scope.Patches(Get(plan, scope.field), Get(sys.state.value, scope.field))
    requires TakesPatch(c, scope, Discriminator(scope.field, sys.etag), PatchBody(attrs, sys.state.value, plan))
    ensures var after := Merged(c, scope, attrs, sys.state.value, plan, sys.etag);
            && (Accepted(attrs, plan, None, after) <==> ValuesHold(attrs, config))
            && (Converged(scope, attrs, config, after) <==> ValuesHold(attrs, config))
            && KeepsUnmodelled(attrs, sys.etag, after.etag)
  {
    MergeIsAsPlannedIff(c, scope, attrs, sys, config, plan);
    MergeKeepsInvariant(c, scope, attrs, sys, config, plan);
    ReadIsAcceptedIff(c, scope, attrs, sys, config, plan, PatchedOptions(attrs, sys.state.value, plan, sys.etag));
  }

  lemma UnmodelledWrite(c: Contract, scope: Scope, attrs: Attributes, sys: System, config: Model, plan: Model)
    requires Setting(c, scope, attrs) && Invariant(c, scope, attrs, sys) && GoodConfig(scope, attrs, config)
    requires Get(config, scope.field).text !in scope.known && IsPlan(scope, attrs, sys.state, config, plan)
    requires sys.state.Some? && CanWrite(sys) && Get(sys.state.value, scope.field) == Get(config, scope.field)
    ensures !Idle(attrs, sys.state, config, plan) ==> Marks(attrs, sys.state, config)
    ensures var patch := PatchBody(attrs, sys.state.value, plan);
            && GateAccepts(scope, patch)
            && Write(c, scope, attrs, sys, plan) ==
                 if ScopeAccepts(c, Get(config, scope.field).text, patch)
                 then Merged(c, scope, attrs, sys.state.value, plan, sys.etag) else sys
  {
    assert plan[scope.field] == config[scope.field];
    ScopedPatchPassesTheGate(c, scope, attrs, sys.state.value, config, plan);
    if !Marks(attrs, sys.state, config) {
      NothingProposedIsIdle(scope, attrs, sys.state.value, config, plan);
    }
  }

  /** A create with a value that uapi does not model, or a switch to one, is refused at the type gate. */
  lemma ForeignWriteIsRefused(c: Contract, scope: Scope, attrs: Attributes, sys: System, config: Model, valid: bool)
    requires Fits(scope, attrs) && GoodConfig(scope, attrs, config) && Get(config, scope.field).text !in scope.known
    requires sys.state.Some? ==> Get(sys.state.value, scope.field) != Get(config, scope.field)
    ensures Next(c, scope, attrs, sys, Apply(config, valid)) == sys
  {
    var plan := FullPlan(scope, attrs, sys.state, config);
    FullPlanIsPlan(scope, attrs, sys.state, config);
    ReplaceBodyAsksOnly(scope, attrs, sys.state, config, sys.state.None?, plan);
    assert plan[scope.field] == config[scope.field];
  }

  /**
   What an update that keeps an unmodelled value comes to: a PATCH that passes the type gate. It does
   nothing when the plan is the state or when the server refuses it. Else every unmodelled option is
   kept, and Terraform accepts the result, with nothing more to plan, exactly when every configured
   value is one that reads back.
   */
  ghost predicate UnmodelledResult(c: Contract, scope: Scope, attrs: Attributes, now: System, config: Model,
                                   valid: bool,
                                   after: System)
    requires now.state.Some? && Get(config, scope.field).Str?
  {
    var plan := FullPlan(scope, attrs, now.state, config);
    var patch := PatchBody(attrs, now.state.value, plan);
    && GateAccepts(scope, patch)
    && if NothingPlanned(attrs, now, config, plan) || !valid || !ScopeAccepts(c, Get(config, scope.field).text, patch)
       then after == now
       else
         && (Accepted(attrs, plan, PlannedTag(attrs, now, config), after) <==> ValuesHold(attrs, config))
         && (Converged(scope, attrs, config, after) <==> ValuesHold(attrs, config))
         && KeepsUnmodelled(attrs, now.etag, after.etag)
  }

  /** At every point of every run, an update that keeps a value which uapi does not model comes to just that. */
  lemma EveryUnmodelledUpdate(c: Contract, scope: Scope, attrs: Attributes, sys: System, events: seq<Event>,
                              config: Model, valid: bool)
    requires Setting(c, scope, attrs) && Invariant(c, scope, attrs, sys) && GoodEvents(scope, attrs, events)
    requires GoodConfig(scope, attrs, config) && Get(config, scope.field).text !in scope.known
    requires var now := Run(c, scope, attrs, sys, events);
             now.state.Some? && CanWrite(now) && Get(now.state.value, scope.field) == Get(config, scope.field)
    ensures var now := Run(c, scope, attrs, sys, events);
            UnmodelledResult(c, scope, attrs, now, config, valid, Next(c, scope, attrs, now, Apply(config, valid)))
  {
    var now := Run(c, scope, attrs, sys, events);
    var plan := FullPlan(scope, attrs, now.state, config);
    RunKeepsInvariant(c, scope, attrs, sys, events);
    FullPlanIsPlan(scope, attrs, now.state, config);
    UnmodelledWrite(c, scope, attrs, now, config, plan);
    if !Idle(attrs, now.state, config, plan)
      && ScopeAccepts(c, Get(config, scope.field).text, PatchBody(attrs, now.state.value, plan)) {
      MergeIsAcceptedIff(c, scope, attrs, now, config, plan);
    }
  }

  /** What any apply comes to, at any point of a run. */
  ghost predicate ApplyResult(c: Contract, scope: Scope, attrs: Attributes, now: System, config: Model, valid: bool,
                              after: System)
    requires Get(config, scope.field).Str?
  {
    if now.state.Some? && now.router != Some(now.etag) then after == now
    else if Get(config, scope.field).text in scope.known then
      ModelledResult(c, scope, attrs, now, config, valid, after)
    else if now.state.Some? && Get(now.state.value, scope.field) == Get(config, scope.field) then
      UnmodelledResult(c, scope, attrs, now, config, valid, after)
    else after == now
  }

  /**
   At every point of every run: an apply on a section that is gone, or that holds another document than
   the one with the ETag in the state, changes nothing. Any other comes to the results above; a create
   with a value that uapi does not model, and a switch to one, are refused.
   */
  lemma EveryApply(c: Contract, scope: Scope, attrs: Attributes, sys: System, events: seq<Event>, config: Model,
                   valid: bool)
    requires Setting(c, scope, attrs) && Invariant(c, scope, attrs, sys) && GoodEvents(scope, attrs, events)
    requires GoodConfig(scope, attrs, config)
    ensures var now := Run(c, scope, attrs, sys, events);
            ApplyResult(c, scope, attrs, now, config, valid, Next(c, scope, attrs, now, Apply(config, valid)))
  {
    var now := Run(c, scope, attrs, sys, events);
    if !CanWrite(now) {
    } else if Get(config, scope.field).text in scope.known {
      EveryModelledApply(c, scope, attrs, sys, events, config, valid);
    } else if now.state.Some? && Get(now.state.value, scope.field) == Get(config, scope.field) {
      EveryUnmodelledUpdate(c, scope, attrs, sys, events, config, valid);
    } else {
      ForeignWriteIsRefused(c, scope, attrs, now, config, valid);
    }
  }
}
