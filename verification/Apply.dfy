/** One apply: the body that the plan sends, the server's acceptance, and the read of the answer. */
module Apply {
  import opened Wrappers
  import opened Codec
  import opened FieldScope
  import opened Json
  import opened Router
  import opened Schema

  /** A value that reads back as it was sent: JSON and float64 carry it, and it is no empty string. */
  predicate Keepable(a: Attribute, v: Value) {
    Typed(CodingOf(a), v) && (Known(v) ==> Faithful(CodingOf(a), v) && v != Str(""))
  }

  /** A configuration with a known discriminator that validateConfig accepts. */
  predicate ValidConfig(scope: Scope, config: Model) {
    Get(config, scope.field).Str? && Reported(scope, config) == []
  }

  /** A valid configuration with known values of the right types, as Terraform applies it. */
  predicate GoodConfig(scope: Scope, attrs: Attributes, config: Model) {
    && config.Keys == attrs.Keys
    && (forall k :: k in attrs ==> !config[k].Unknown? && Typed(CodingOf(attrs[k]), config[k]))
    && (forall k :: k in attrs && attrs[k].kind == Required ==> Known(config[k]))
    && (forall k :: k in attrs && !Writable(attrs[k].kind) ==> config[k].Null?)
    && ValidConfig(scope, config) && Get(config, scope.field) != Str("")
  }

  /**
   What every state of the resource satisfies, whatever others did to the router: nothing is unknown,
   a field that the discriminator hides is null or an empty list, and a null field has no default.
   */
  predicate Settled(c: Contract, scope: Scope, attrs: Attributes, m: Model) {
    && m.Keys == attrs.Keys
    && Get(m, scope.field).Str?
    && var v := Get(m, scope.field).text;
    && forall k :: k in attrs ==> SettledOne(c, attrs[k], v, k, m[k])
  }

  predicate SettledOne(c: Contract, a: Attribute, v: string, k: string, value: Value) {
    && !value.Unknown?
    && (Sent(a.kind) ==> Typed(CodingOf(a), value))
    && (Sent(a.kind) && Schema.Read(a.kind) ==>
        Keepable(a, value) &&
        if k in c.hidden(v) then value == Null || value == Texts([])
        else value.Null? ==> c.defaults(v, k).JNull?)
  }

  // ---------------------------------------------------------------- the request

  /** A planned value for a field that the planned discriminator does not take. */
  lemma ExcludedPlan(scope: Scope, attrs: Attributes, prior: Option<Model>, config: Model, k: string)
    requires ValidConfig(scope, config) && k in attrs
    requires k in scope.Excluded(Get(config, scope.field).text)
    ensures var p := PlanOf(scope, attrs, prior, config, k); Known(p) ==> p == Texts([])
  {
    ValidIff(scope, config, Get(config, scope.field).text);
    assert !Refusable(Get(config, k));
  }

  /** What the body of a POST or PUT asks for. */
  predicate AskedOnly(scope: Scope, v: string, body: Fields) {
    && Member(body, scope.field) == JStr(v)
    && forall k :: k in body && k in scope.Excluded(v) ==> body[k] == JArr([])
  }

  lemma ReplaceBodyAsksOnly(scope: Scope, attrs: Attributes, prior: Option<Model>, config: Model, create: bool,
                            plan: Model)
    requires Fits(scope, attrs) && ValidConfig(scope, config) && IsPlan(scope, attrs, prior, config, plan)
    ensures AskedOnly(scope, Get(config, scope.field).text, Body(attrs, plan, create))
  {
    var body, v := Body(attrs, plan, create), Get(config, scope.field).text;
    forall k | k in body && k in scope.Excluded(v)
      ensures body[k] == JArr([])
    {
      ExcludedPlan(scope, attrs, prior, config, k);
      assert JStrings([]) == [];
    }
    assert plan[scope.field] == Str(v);
  }

  lemma AskedIsAccepted(c: Contract, scope: Scope, attrs: Attributes, v: string, plan: Model, create: bool)
    requires HidesByTable(c, scope, attrs) && v in scope.known && AskedOnly(scope, v, Body(attrs, plan, create))
    ensures ScopeAccepts(c, v, Body(attrs, plan, create)) && GateAccepts(scope, Body(attrs, plan, create))
  {
    var body := Body(attrs, plan, create);
    forall k | k in body && k in c.hidden(v)
      ensures AsksForNothing(body[k])
    {
      assert Writable(attrs[k].kind);
    }
  }

  /**
   Whatever the prior state and the other values of a valid configuration, unknown ones included, the
   body of a POST or PUT carries nothing, or an empty list, for each field that the planned value does
   not take: the server's scope rule and its type gate pass it.
   */
  lemma ReplaceIsAccepted(c: Contract, scope: Scope, attrs: Attributes, prior: Option<Model>, config: Model,
                          create: bool)
    requires Fits(scope, attrs) && HidesByTable(c, scope, attrs) && ValidConfig(scope, config)
    ensures var body, v := Body(attrs, FullPlan(scope, attrs, prior, config), create), Get(config, scope.field).text;
            && AskedOnly(scope, v, body)
            && (v in scope.known ==> ScopeAccepts(c, v, body) && GateAccepts(scope, body))
  {
    var plan, v := FullPlan(scope, attrs, prior, config), Get(config, scope.field).text;
    FullPlanIsPlan(scope, attrs, prior, config);
    ReplaceBodyAsksOnly(scope, attrs, prior, config, create, plan);
    if v in scope.known {
      AskedIsAccepted(c, scope, attrs, v, plan, create);
    }
  }

  // ------------------------------------------------------------- create and PUT

  /** What the plan of a sent attribute can be. */
  lemma PlannedOne(c: Contract, scope: Scope, attrs: Attributes, prior: Option<Model>, config: Model, k: string)
    requires GoodConfig(scope, attrs, config)
    requires prior.Some? ==> Settled(c, scope, attrs, prior.value)
    requires k in attrs && Sent(attrs[k].kind)
    ensures Typed(CodingOf(attrs[k]), PlanOf(scope, attrs, prior, config, k))
    ensures Schema.Read(attrs[k].kind) ==>
      (Keepable(attrs[k], PlanOf(scope, attrs, prior, config, k)) <==> Keepable(attrs[k], config[k]))
  {
    if prior.Some? {
      assert SettledOne(c, attrs[k], Get(prior.value, scope.field).text, k, prior.value[k]);
    }
  }

  /**
   A null that the plan carries over a switch: nothing is configured, the state holds null through
   UseStateForUnknown, and both the old and the new discriminator value take the field.
   */
  predicate KeptNull(scope: Scope, attrs: Attributes, prior: Option<Model>, config: Model, k: string) {
    && prior.Some? && k in attrs && KeepsState(attrs[k].kind) && Get(config, k).Null? && Get(prior.value, k).Null?
    && var v, was := Get(config, scope.field), Get(prior.value, scope.field);
    && v.Str? && was.Str? && v != was
    && k !in scope.Excluded(v.text) && k !in scope.Excluded(was.text)
  }

  predicate NullHolds(c: Contract, scope: Scope, attrs: Attributes, prior: Option<Model>, config: Model, k: string)
    requires Get(config, scope.field).Str?
  {
    KeptNull(scope, attrs, prior, config, k) ==> c.defaults(Get(config, scope.field).text, k).JNull?
  }

  /** No null that the plan carries over a switch has a default under the new value. */
  predicate NullsHold(c: Contract, scope: Scope, attrs: Attributes, prior: Option<Model>, config: Model)
    requires Get(config, scope.field).Str?
  {
    forall k :: k in attrs ==> NullHolds(c, scope, attrs, prior, config, k)
  }

  /** A configured value that an answer should bring back is one that JSON carries and uci stores. */
  predicate ValueHolds(a: Attribute, configured: Value) {
    Sent(a.kind) && Schema.Read(a.kind) ==> Keepable(a, configured)
  }

  predicate ValuesHold(attrs: Attributes, config: Model) {
    forall k :: k in attrs ==> ValueHolds(attrs[k], Get(config, k))
  }

  /** A null planned for a Computed field that applies is the state's. */
  lemma HeldNull(scope: Scope, attrs: Attributes, prior: Option<Model>, config: Model, k: string)
    requires k in attrs && Computed(attrs[k].kind) && PlanOf(scope, attrs, prior, config, k).Null?
    requires Get(config, scope.field).Str? && k !in scope.Excluded(Get(config, scope.field).text)
    ensures prior.Some? && Get(config, k).Null? && Get(prior.value, k).Null?
    ensures var was := Get(prior.value, scope.field);
            was.Str? && was != Get(config, scope.field) ==> k !in scope.Excluded(was.text)
  {
  }

  /** A planned null is carried over a switch, or the server leaves it alone. */
  lemma PlannedNull(c: Contract, scope: Scope, attrs: Attributes, prior: Option<Model>, config: Model, k: string)
    requires WellBehaved(c, scope, attrs) && GoodConfig(scope, attrs, config)
    requires prior.Some? ==> Settled(c, scope, attrs, prior.value)
    requires k in attrs && Sent(attrs[k].kind) && Schema.Read(attrs[k].kind)
    requires PlanOf(scope, attrs, prior, config, k).Null?
    requires var v := Get(config, scope.field).text; v in scope.known && k !in scope.Excluded(v)
    ensures KeptNull(scope, attrs, prior, config, k) || c.defaults(Get(config, scope.field).text, k).JNull?
  {
    if attrs[k].kind != OptClear {
      HeldNull(scope, attrs, prior, config, k);
      assert SettledOne(c, attrs[k], Get(prior.value, scope.field).text, k, prior.value[k]);
    }
  }

  lemma KeptNullIsPlanned(scope: Scope, attrs: Attributes, prior: Option<Model>, config: Model, k: string)
    requires KeptNull(scope, attrs, prior, config, k)
    ensures Writable(attrs[k].kind) && PlanOf(scope, attrs, prior, config, k).Null?
  {
  }

  /** The answer to a write that replaces the section, read into the planned model. */
  function AfterReplace(c: Contract, attrs: Attributes, v: string, body: Fields, plan: Model): Model {
    ReadBack(attrs, View(c, attrs, v, Stored(body)), plan)
  }

  /** A planned value of a sent attribute reads back if it is keepable, and a null if it has no default. */
  lemma ReplacedOne(c: Contract, attrs: Attributes, v: string, plan: Model, create: bool, k: string)
    requires k in attrs && Sent(attrs[k].kind) && Schema.Read(attrs[k].kind) && k in plan && !plan[k].Unknown?
    requires Typed(CodingOf(attrs[k]), plan[k])
    requires k in c.hidden(v) ==> plan[k] == Null || plan[k] == Texts([])
    requires attrs[k].ty == ListType ==> c.defaults(v, k).JNull?
    requires !c.defaults(v, k).JNull? ==> Readable(attrs[k], c.defaults(v, k))
    ensures AfterReplace(c, attrs, v, Body(attrs, plan, create), plan)[k] == plan[k]
        <==> if plan[k].Null? then k in c.hidden(v) || c.defaults(v, k).JNull? else Keepable(attrs[k], plan[k])
  {
    var a := attrs[k];
    var body := Body(attrs, plan, create);
    var obj := View(c, attrs, v, Stored(body));
    if plan[k] == Texts([]) {
      ListCoding(a, plan[k]);
    }
    if Known(plan[k]) && plan[k] != Texts([]) && plan[k] != Str("") {
      EncodedIsReadable(a, plan[k]);
      assert k in Stored(body) && obj[k] == Encode(CodingOf(a), plan[k]);
      ReadsValue(a, obj, k, plan[k]);
    } else {
      if plan[k] == Texts([]) {
        assert JStrings([]) == [];
      }
      assert k !in Stored(body);
      if k in obj {
        ReadsValue(a, obj, k, plan[k]);
      } else {
        ReadsNothing(a, obj, k, plan[k]);
      }
    }
  }

  /** Every attribute that was planned known reads back as planned. */
  predicate Consistent(attrs: Attributes, plan: Model, after: Model) {
    forall k :: k in attrs && k in plan && k in after && !plan[k].Unknown? ==> after[k] == plan[k]
  }

  /** The same for the attributes that a caller can set. */
  predicate AsPlanned(attrs: Attributes, plan: Model, after: Model) {
    forall k :: k in attrs && k in plan && k in after && Writable(attrs[k].kind) && !plan[k].Unknown? ==>
        after[k] == plan[k]
  }

  /** The attributes that only the server sets stay as they were planned. */
  predicate ReadOnlyKept(attrs: Attributes, plan: Model, after: Model) {
    forall k :: k in attrs && k in plan && k in after && !Writable(attrs[k].kind) && !plan[k].Unknown? ==>
        after[k] == plan[k]
  }

  lemma ConsistentIff(attrs: Attributes, plan: Model, after: Model)
    ensures Consistent(attrs, plan, after) <==> AsPlanned(attrs, plan, after) && ReadOnlyKept(attrs, plan, after)
  {
  }

  lemma ReplacedPlanOne(c: Contract, scope: Scope, attrs: Attributes, prior: Option<Model>, config: Model, create: bool,
                        plan: Model, k: string)
    requires Fits(scope, attrs) && WellBehaved(c, scope, attrs) && GoodConfig(scope, attrs, config)
    requires prior.Some? ==> Settled(c, scope, attrs, prior.value)
    requires Get(config, scope.field).text in scope.known && IsPlan(scope, attrs, prior, config, plan)
    requires k in attrs && Writable(attrs[k].kind) && !plan[k].Unknown?
    ensures AfterReplace(c, attrs, Get(config, scope.field).text, Body(attrs, plan, create), plan)[k] == plan[k]
        <==> NullHolds(c, scope, attrs, prior, config, k) && ValueHolds(attrs[k], config[k])
  {
    if Sent(attrs[k].kind) && Schema.Read(attrs[k].kind) {
      var v := Get(config, scope.field).text;
      PlannedOne(c, scope, attrs, prior, config, k);
      if k in scope.Excluded(v) {
        ExcludedPlan(scope, attrs, prior, config, k);
      } else if plan[k].Null? {
        PlannedNull(c, scope, attrs, prior, config, k);
      }
      if KeptNull(scope, attrs, prior, config, k) {
        KeptNullIsPlanned(scope, attrs, prior, config, k);
      }
      ReplacedOne(c, attrs, v, plan, create, k);
    }
  }

  lemma ReplacedAsPlannedAt(c: Contract, scope: Scope, attrs: Attributes, prior: Option<Model>, config: Model,
                            create: bool, plan: Model, k: string)
    requires Fits(scope, attrs) && WellBehaved(c, scope, attrs) && GoodConfig(scope, attrs, config)
    requires prior.Some? ==> Settled(c, scope, attrs, prior.value)
    requires Get(config, scope.field).text in scope.known && IsPlan(scope, attrs, prior, config, plan) && k in attrs
    ensures var after := AfterReplace(c, attrs, Get(config, scope.field).text, Body(attrs, plan, create), plan);
            (Writable(attrs[k].kind) && !plan[k].Unknown? ==> after[k] == plan[k]) <==>
              NullHolds(c, scope, attrs, prior, config, k) && ValueHolds(attrs[k], config[k])
  {
    if KeptNull(scope, attrs, prior, config, k) {
      KeptNullIsPlanned(scope, attrs, prior, config, k);
    }
    if Writable(attrs[k].kind) && !plan[k].Unknown? {
      ReplacedPlanOne(c, scope, attrs, prior, config, create, plan, k);
    }
  }

  /** An attribute is as planned exactly when its configured value and its carried null hold. */
  predicate AsPlannedIffAt(c: Contract, scope: Scope, attrs: Attributes, prior: Option<Model>, config: Model,
                           plan: Model, after: Model, k: string)
    requires Get(config, scope.field).Str? && k in attrs && k in plan && k in after && k in config
  {
    (Writable(attrs[k].kind) && !plan[k].Unknown? ==> after[k] == plan[k])
      <==> NullHolds(c, scope, attrs, prior, config, k) && ValueHolds(attrs[k], config[k])
  }

  predicate AsPlannedIffEverywhere(c: Contract, scope: Scope, attrs: Attributes, prior: Option<Model>, config: Model,
                                   plan: Model, after: Model)
    requires Get(config, scope.field).Str? && plan.Keys == attrs.Keys == after.Keys == config.Keys
  {
    forall k :: k in attrs ==> AsPlannedIffAt(c, scope, attrs, prior, config, plan, after, k)
  }

  lemma ReplacedAsPlanned(c: Contract, scope: Scope, attrs: Attributes, prior: Option<Model>, config: Model,
                          create: bool, plan: Model, after: Model)
    requires Fits(scope, attrs) && WellBehaved(c, scope, attrs) && GoodConfig(scope, attrs, config)
    requires prior.Some? ==> Settled(c, scope, attrs, prior.value)
    requires Get(config, scope.field).text in scope.known && IsPlan(scope, attrs, prior, config, plan)
    requires after == AfterReplace(c, attrs, Get(config, scope.field).text, Body(attrs, plan, create), plan)
    ensures AsPlannedIffEverywhere(c, scope, attrs, prior, config, plan, after)
  {
    forall k | k in attrs
      ensures AsPlannedIffAt(c, scope, attrs, prior, config, plan, after, k)
    {
      ReplacedAsPlannedAt(c, scope, attrs, prior, config, create, plan, k);
    }
  }

  lemma AsPlannedPointwise(c: Contract, scope: Scope, attrs: Attributes, prior: Option<Model>, config: Model,
                           plan: Model, after: Model)
    requires Get(config, scope.field).Str? && plan.Keys == attrs.Keys == after.Keys == config.Keys
    requires AsPlannedIffEverywhere(c, scope, attrs, prior, config, plan, after)
    ensures AsPlanned(attrs, plan, after) <==> NullsHold(c, scope, attrs, prior, config) && ValuesHold(attrs, config)
  {
    if AsPlanned(attrs, plan, after) {
      forall k | k in attrs
        ensures NullHolds(c, scope, attrs, prior, config, k) && ValueHolds(attrs[k], config[k])
      {
        assert Writable(attrs[k].kind) && !plan[k].Unknown? ==> after[k] == plan[k];
        assert AsPlannedIffAt(c, scope, attrs, prior, config, plan, after, k);
      }
    }
  }

  /**
   After a create or a PUT, every settable attribute that was planned known reads back as planned,
   exactly when each configured value is one that reads back and no null that the plan carries over a
   switch has a default under the new value.
   */
  lemma ReplaceIsAsPlannedIff(c: Contract, scope: Scope, attrs: Attributes, prior: Option<Model>, config: Model,
                              create: bool, plan: Model)
    requires Fits(scope, attrs) && WellBehaved(c, scope, attrs) && GoodConfig(scope, attrs, config)
    requires prior.Some? ==> Settled(c, scope, attrs, prior.value)
    requires Get(config, scope.field).text in scope.known && IsPlan(scope, attrs, prior, config, plan)
    ensures AsPlanned(attrs, plan,
        AfterReplace(c, attrs, Get(config, scope.field).text, Body(attrs, plan, create), plan))
        <==> NullsHold(c, scope, attrs, prior, config) && ValuesHold(attrs, config)
  {
    var after := AfterReplace(c, attrs, Get(config, scope.field).text, Body(attrs, plan, create), plan);
    ReplacedAsPlanned(c, scope, attrs, prior, config, create, plan, after);
    AsPlannedPointwise(c, scope, attrs, prior, config, plan, after);
  }

  /**
   What the state takes over from the plan in any case: the known values, and the nulls of the fields
   that do not apply or that the server never fills in.
   */
  predicate TakesOver(scope: Scope, attrs: Attributes, config: Model, plan: Model, after: Model)
    requires Get(config, scope.field).Str?
  {
    forall k :: k in attrs && k in plan && k in after && Writable(attrs[k].kind) ==>
      && (Known(plan[k]) ==> after[k] == plan[k])
      && (plan[k].Null? && (!Computed(attrs[k].kind) || k in scope.Excluded(Get(config, scope.field).text)) ==>
          after[k].Null?)
  }

  lemma AsPlannedTakesOver(scope: Scope, attrs: Attributes, config: Model, plan: Model, after: Model)
    requires Get(config, scope.field).Str? && AsPlanned(attrs, plan, after)
    ensures TakesOver(scope, attrs, config, plan, after)
  {
  }

  /** A create or a PUT of values that read back takes the plan over, whatever the server fills in. */
  lemma ReplaceTakesOver(c: Contract, scope: Scope, attrs: Attributes, prior: Option<Model>, config: Model,
                         create: bool, plan: Model)
    requires Fits(scope, attrs) && WellBehaved(c, scope, attrs) && GoodConfig(scope, attrs, config)
    requires prior.Some? ==> Settled(c, scope, attrs, prior.value)
    requires Get(config, scope.field).text in scope.known && IsPlan(scope, attrs, prior, config, plan)
    requires ValuesHold(attrs, config)
    ensures TakesOver(scope, attrs, config, plan,
        AfterReplace(c, attrs, Get(config, scope.field).text, Body(attrs, plan, create), plan))
  {
    var after := AfterReplace(c, attrs, Get(config, scope.field).text, Body(attrs, plan, create), plan);
    forall k | k in attrs && Writable(attrs[k].kind) && !plan[k].Unknown?
      ensures Known(plan[k]) || !Computed(attrs[k].kind) || k in scope.Excluded(Get(config, scope.field).text) ==>
          after[k] == plan[k]
    {
      ReplacedPlanOne(c, scope, attrs, prior, config, create, plan, k);
      if KeptNull(scope, attrs, prior, config, k) {
        KeptNullIsPlanned(scope, attrs, prior, config, k);
      }
    }
  }

  lemma ListCoding(a: Attribute, v: Value)
    requires Typed(CodingOf(a), v) && v == Texts([])
    ensures CodingOf(a) == AsList && a.ty == ListType
  {
  }
}
