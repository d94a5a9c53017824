/** What holds after an apply or a refresh: settled states, empty follow-up plans, marked ETags. */
module Converge {
  import opened Wrappers
  import opened Apply
  import opened Codec
  import opened FieldScope
  import opened Json
  import opened Router
  import opened Schema

  /** The attributes that no answer carries are held as they were: known or null. */
  predicate HeldOver(attrs: Attributes, m: Model) {
    && m.Keys == attrs.Keys
    && forall k :: k in attrs && !Schema.Read(attrs[k].kind) ==>
         !m[k].Unknown? && (Sent(attrs[k].kind) ==> Typed(CodingOf(attrs[k]), m[k]))
  }

  lemma SettledReadOne(c: Contract, attrs: Attributes, v: string, opts: Fields, m: Model, k: string)
    requires Sane(attrs, opts) && k in attrs && HeldOver(attrs, m)
    requires Sent(attrs[k].kind) && !c.defaults(v, k).JNull? ==> Readable(attrs[k], c.defaults(v, k))
    ensures SettledOne(c, attrs[k], v, k, ReadBack(attrs, View(c, attrs, v, opts), m)[k])
  {
    var a, obj := attrs[k], View(c, attrs, v, opts);
    if Sent(a.kind) && Schema.Read(a.kind) {
      if k in obj {
        ReadsValue(a, obj, k, m[k]);
      } else {
        ReadsNothing(a, obj, k, m[k]);
      }
    }
  }

  /**
   A refresh settles the state whatever others stored, including a discriminator that uapi does not
   model.
   */
  lemma RefreshSettles(c: Contract, scope: Scope, attrs: Attributes, v: string, opts: Fields, m: Model)
    requires Fits(scope, attrs) && WellBehaved(c, scope, attrs) && Sane(attrs, opts) && HeldOver(attrs, m)
    requires Member(opts, scope.field) == JStr(v)
    ensures Settled(c, scope, attrs, ReadBack(attrs, View(c, attrs, v, opts), m))
    ensures Get(ReadBack(attrs, View(c, attrs, v, opts), m), scope.field) == Str(v)
  {
    var after := ReadBack(attrs, View(c, attrs, v, opts), m);
    forall k | k in attrs
      ensures SettledOne(c, attrs[k], v, k, after[k])
    {
      SettledReadOne(c, attrs, v, opts, m, k);
    }
    assert scope.field in View(c, attrs, v, opts);
  }

  /** What a replacing write leaves stored is sane, and names the planned discriminator. */
  lemma StoredBodyIsSane(attrs: Attributes, plan: Model, create: bool)
    requires forall k :: k in attrs && Sent(attrs[k].kind) ==> Typed(CodingOf(attrs[k]), Get(plan, k))
    ensures Sane(attrs, Stored(Body(attrs, plan, create)))
  {
    var opts := Stored(Body(attrs, plan, create));
    forall k | k in opts && k in attrs && Sent(attrs[k].kind) && Schema.Read(attrs[k].kind)
      ensures Readable(attrs[k], opts[k])
    {
      assert Get(plan, k) == Texts([]) ==> JStrings([]) == [];
      EncodedIsReadable(attrs[k], plan[k]);
    }
  }

  lemma PlanIsTyped(c: Contract, scope: Scope, attrs: Attributes, prior: Option<Model>, config: Model, plan: Model)
    requires GoodConfig(scope, attrs, config) && IsPlan(scope, attrs, prior, config, plan)
    requires prior.Some? ==> Settled(c, scope, attrs, prior.value)
    ensures forall k :: k in attrs && Sent(attrs[k].kind) ==> Typed(CodingOf(attrs[k]), Get(plan, k))
    ensures HeldOver(attrs, plan)
  {
    forall k | k in attrs && Sent(attrs[k].kind)
      ensures Typed(CodingOf(attrs[k]), Get(plan, k))
    {
      PlannedOne(c, scope, attrs, prior, config, k);
    }
  }

  /** A create or a PUT leaves a settled state behind. */
  lemma ReplaceSettles(c: Contract, scope: Scope, attrs: Attributes, prior: Option<Model>, config: Model, create: bool,
                       plan: Model)
    requires Fits(scope, attrs) && WellBehaved(c, scope, attrs) && GoodConfig(scope, attrs, config)
    requires prior.Some? ==> Settled(c, scope, attrs, prior.value)
    requires IsPlan(scope, attrs, prior, config, plan)
    ensures var v := Get(config, scope.field).text;
            var after := AfterReplace(c, attrs, v, Body(attrs, plan, create), plan);
            Settled(c, scope, attrs, after) && Get(after, scope.field) == Str(v)
    ensures Sane(attrs, Stored(Body(attrs, plan, create)))
  {
    var v := Get(config, scope.field).text;
    PlanIsTyped(c, scope, attrs, prior, config, plan);
    StoredBodyIsSane(attrs, plan, create);
    assert plan[scope.field] == Str(v) && v != "";
    RefreshSettles(c, scope, attrs, v, Stored(Body(attrs, plan, create)), plan);
  }

  lemma TakenOverProposesNothing(scope: Scope, attrs: Attributes, prior: Option<Model>, config: Model, plan: Model,
                                 after: Model)
    requires Fits(scope, attrs) && GoodConfig(scope, attrs, config) && IsPlan(scope, attrs, prior, config, plan)
    requires after.Keys == attrs.Keys && TakesOver(scope, attrs, config, plan, after)
    ensures !Marks(attrs, Some(after), config)
    ensures after[scope.field] == config[scope.field]
  {
    forall k | k in attrs
      ensures ProposedNew(attrs, Some(after), config)[k] == after[k]
    {
      assert plan[k] == PlanOf(scope, attrs, prior, config, k);
    }
    assert ProposedNew(attrs, Some(after), config) == after;
    assert after[scope.field] == plan[scope.field] == config[scope.field];
  }

  lemma ConvergesAt(scope: Scope, attrs: Attributes, prior: Option<Model>, config: Model, plan: Model, after: Model,
                    k: string)
    requires Fits(scope, attrs) && GoodConfig(scope, attrs, config) && IsPlan(scope, attrs, prior, config, plan)
    requires after.Keys == attrs.Keys && TakesOver(scope, attrs, config, plan, after)
    requires !Marks(attrs, Some(after), config) && after[scope.field] == config[scope.field] && k in attrs
    ensures after[k] == PlanOf(scope, attrs, Some(after), config, k)
  {
    assert plan[k] == PlanOf(scope, attrs, prior, config, k);
    ScopedMembers(scope.rules, Get(config, scope.field).text, k);
  }

  /** A state that took the plan over plans nothing more under the same configuration. */
  lemma TakenOverConverges(scope: Scope, attrs: Attributes, prior: Option<Model>, config: Model, plan: Model,
                           after: Model)
    requires Fits(scope, attrs) && GoodConfig(scope, attrs, config) && IsPlan(scope, attrs, prior, config, plan)
    requires after.Keys == attrs.Keys && TakesOver(scope, attrs, config, plan, after)
    ensures !Marks(attrs, Some(after), config)
    ensures IsPlan(scope, attrs, Some(after), config, after)
  {
    TakenOverProposesNothing(scope, attrs, prior, config, plan, after);
    forall k | k in attrs
      ensures after[k] == PlanOf(scope, attrs, Some(after), config, k)
    {
      ConvergesAt(scope, attrs, prior, config, plan, after, k);
    }
  }

  lemma PlansAgree(scope: Scope, attrs: Attributes, prior: Option<Model>, config: Model, p: Model, q: Model)
    requires IsPlan(scope, attrs, prior, config, p) && IsPlan(scope, attrs, prior, config, q)
    ensures p == q
  {
    assert p.Keys == q.Keys;
  }

  /** A settled state holds only values that read back, so a configured one that does not is planned again. */
  lemma OwnPlanNeedsValues(c: Contract, scope: Scope, attrs: Attributes, config: Model, m: Model)
    requires Settled(c, scope, attrs, m) && IsPlan(scope, attrs, Some(m), config, m)
    ensures ValuesHold(attrs, config)
  {
    forall k | k in attrs
      ensures ValueHolds(attrs[k], Get(config, k))
    {
      assert m[k] == PlanOf(scope, attrs, Some(m), config, k);
      assert SettledOne(c, attrs[k], Get(m, scope.field).text, k, m[k]);
    }
  }

  lemma ReplacedIsPlan(c: Contract, scope: Scope, attrs: Attributes, prior: Option<Model>, config: Model,
                       create: bool, plan: Model)
    requires Fits(scope, attrs) && WellBehaved(c, scope, attrs) && GoodConfig(scope, attrs, config)
    requires prior.Some? ==> Settled(c, scope, attrs, prior.value)
    requires Get(config, scope.field).text in scope.known && IsPlan(scope, attrs, prior, config, plan)
    requires ValuesHold(attrs, config)
    ensures var after := AfterReplace(c, attrs, Get(config, scope.field).text, Body(attrs, plan, create), plan);
            IsPlan(scope, attrs, Some(after), config, after) && !Marks(attrs, Some(after), config)
  {
    var after := AfterReplace(c, attrs, Get(config, scope.field).text, Body(attrs, plan, create), plan);
    ReplaceTakesOver(c, scope, attrs, prior, config, create, plan);
    TakenOverConverges(scope, attrs, prior, config, plan, after);
  }

  /** The state that a create or a PUT left is its own plan exactly when every configured value reads back. */
  lemma ReplacedIsPlanIff(c: Contract, scope: Scope, attrs: Attributes, prior: Option<Model>, config: Model,
                          create: bool, plan: Model)
    requires Fits(scope, attrs) && WellBehaved(c, scope, attrs) && GoodConfig(scope, attrs, config)
    requires prior.Some? ==> Settled(c, scope, attrs, prior.value)
    requires Get(config, scope.field).text in scope.known && IsPlan(scope, attrs, prior, config, plan)
    ensures var after := AfterReplace(c, attrs, Get(config, scope.field).text, Body(attrs, plan, create), plan);
            && (IsPlan(scope, attrs, Some(after), config, after) <==> ValuesHold(attrs, config))
            && (ValuesHold(attrs, config) ==> !Marks(attrs, Some(after), config))
  {
    if ValuesHold(attrs, config) {
      ReplacedIsPlan(c, scope, attrs, prior, config, create, plan);
    } else {
      var after := AfterReplace(c, attrs, Get(config, scope.field).text, Body(attrs, plan, create), plan);
      if IsPlan(scope, attrs, Some(after), config, after) {
        ReplaceSettles(c, scope, attrs, prior, config, create, plan);
        OwnPlanNeedsValues(c, scope, attrs, config, after);
      }
    }
  }

  /** A full plan is the state exactly when the state is a plan. */
  lemma PlansItselfIff(scope: Scope, attrs: Attributes, config: Model, m: Model)
    requires Fits(scope, attrs) && GoodConfig(scope, attrs, config) && m.Keys == attrs.Keys
    ensures FullPlan(scope, attrs, Some(m), config) == m <==> IsPlan(scope, attrs, Some(m), config, m)
  {
    FullPlanIsPlan(scope, attrs, Some(m), config);
    if IsPlan(scope, attrs, Some(m), config, m) {
      PlansAgree(scope, attrs, Some(m), config, m, FullPlan(scope, attrs, Some(m), config));
    }
  }

  lemma ReplacedPlansItselfIff(c: Contract, scope: Scope, attrs: Attributes, prior: Option<Model>, config: Model,
                               create: bool, plan: Model)
    requires Fits(scope, attrs) && WellBehaved(c, scope, attrs) && GoodConfig(scope, attrs, config)
    requires prior.Some? ==> Settled(c, scope, attrs, prior.value)
    requires Get(config, scope.field).text in scope.known && IsPlan(scope, attrs, prior, config, plan)
    ensures var after := AfterReplace(c, attrs, Get(config, scope.field).text, Body(attrs, plan, create), plan);
            FullPlan(scope, attrs, Some(after), config) == after <==> ValuesHold(attrs, config)
  {
    ReplacedIsPlanIff(c, scope, attrs, prior, config, create, plan);
    PlansItselfIff(scope, attrs, config,
      AfterReplace(c, attrs, Get(config, scope.field).text, Body(attrs, plan, create), plan));
  }

  /**
   Applying a configuration once is enough exactly when each of its values is one that reads back, even
   when the server filled in what the plan did not say: the plan of the same configuration against the
   state that a create or a PUT left is that state.
   */
  lemma ReplaceConvergesIff(c: Contract, scope: Scope, attrs: Attributes, prior: Option<Model>, config: Model,
                         create: bool)
    requires Fits(scope, attrs) && WellBehaved(c, scope, attrs) && GoodConfig(scope, attrs, config)
    requires prior.Some? ==> Settled(c, scope, attrs, prior.value)
    requires Get(config, scope.field).text in scope.known
    ensures var plan := FullPlan(scope, attrs, prior, config);
            var after := AfterReplace(c, attrs, Get(config, scope.field).text, Body(attrs, plan, create), plan);
            FullPlan(scope, attrs, Some(after), config) == after <==> ValuesHold(attrs, config)
  {
    FullPlanIsPlan(scope, attrs, prior, config);
    ReplacedPlansItselfIff(c, scope, attrs, prior, config, create, FullPlan(scope, attrs, prior, config));
  }

  /**
   When Terraform itself proposes no change, nothing is marked unknown, the ETag included. The hook
   then changes the plan exactly where the state holds an empty list for a field that does not apply
   and that the configuration no longer sets: an update whose planned ETag is the old one.
   */
  lemma HookAloneChangesOnlyEmptyLists(c: Contract, scope: Scope, attrs: Attributes, m: Model, config: Model, k: string)
    requires Fits(scope, attrs) && WellBehaved(c, scope, attrs) && GoodConfig(scope, attrs, config)
    requires Settled(c, scope, attrs, m) && !Marks(attrs, Some(m), config)
    requires Get(config, scope.field).text in scope.known && k in attrs && Sent(attrs[k].kind)
        && Schema.Read(attrs[k].kind)
    ensures var v := Get(config, scope.field).text;
            Get(FullPlan(scope, attrs, Some(m), config), k) != m[k] <==>
              config[k].Null? && Computed(attrs[k].kind) && k in scope.Excluded(v) && m[k] == Texts([])
  {
    FullPlanIs(scope, attrs, Some(m), config, k);
    var proposed := ProposedNew(attrs, Some(m), config);
    assert proposed == m;
    assert proposed[scope.field] == m[scope.field] && proposed[k] == m[k];
    assert SettledOne(c, attrs[k], Get(m, scope.field).text, k, m[k]);
  }

  /**
   A Computed field that was null before a switch and that both values take reads back as planned
   exactly when the table makes it an entering field or the new value has no default for it. The table
   knows nothing of defaults, so this is the part of the contract that the planner cannot check.
   */
  lemma NullAcrossSwitchIff(c: Contract, scope: Scope, attrs: Attributes, m: Model, config: Model, k: string)
    requires Fits(scope, attrs) && GoodConfig(scope, attrs, config) && m.Keys == attrs.Keys && k in attrs
    requires Get(m, scope.field).Str? && Get(m, scope.field) != Get(config, scope.field)
    requires KeepsState(attrs[k].kind) && config[k].Null? && m[k].Null?
    requires var v := Get(config, scope.field).text;
             && k !in scope.Excluded(v) && k !in c.hidden(v)
             && (!c.defaults(v, k).JNull? ==> Readable(attrs[k], c.defaults(v, k)))
    ensures var plan := FullPlan(scope, attrs, Some(m), config);
            var after := AfterReplace(c, attrs, Get(config, scope.field).text, Body(attrs, plan, false), plan);
            Get(plan, k).Unknown? || after[k] == Get(plan, k) <==>
              k in scope.Excluded(Get(m, scope.field).text) || c.defaults(Get(config, scope.field).text, k).JNull?
  {
    var v := Get(config, scope.field).text;
    var plan := FullPlan(scope, attrs, Some(m), config);
    FullPlanIs(scope, attrs, Some(m), config, k);
    if !Get(plan, k).Unknown? {
      var obj := View(c, attrs, v, Stored(Body(attrs, plan, false)));
      if c.defaults(v, k).JNull? {
        ReadsNothing(attrs[k], obj, k, Null);
      } else {
        ReadsValue(attrs[k], obj, k, Null);
      }
    }
  }
}
