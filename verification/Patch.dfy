/**
 An update as a merge PATCH: the scoped resource on a value that uapi does not model, or a resource that
 always patches.
 */
module Patch {
  import opened Wrappers
  import opened Apply
  import opened Codec
  import opened Delta
  import opened FieldScope
  import opened Json
  import opened Router
  import opened Schema

  /** The state is what a read of these options gives. */
  predicate Agrees(c: Contract, attrs: Attributes, v: string, opts: Fields, m: Model) {
    && m.Keys == attrs.Keys
    && forall k :: k in attrs && Schema.Read(attrs[k].kind) ==>
        m[k] == ReadOne(attrs[k], View(c, attrs, v, opts), k, m[k])
  }

  /** No sent attribute is unknown, and a planned null is an old null or a removal that sticks. */
  predicate PatchReady(attrs: Attributes, m: Model, plan: Model) {
    && plan.Keys == attrs.Keys
    && forall k :: k in attrs && Sent(attrs[k].kind) ==>
         && !plan[k].Unknown? && Typed(CodingOf(attrs[k]), plan[k])
         && !Get(m, k).Unknown? && Typed(CodingOf(attrs[k]), Get(m, k))
         && (Schema.Read(attrs[k].kind) ==> Keepable(attrs[k], Get(m, k)))
         && (plan[k].Null? ==> Get(m, k).Null? || attrs[k].kind == OptClear || attrs[k].kind == WriteOnly)
  }

  /** The PATCH branch of a scoped update: same unmodelled value, so no rule applies and nothing is unknown. */
  lemma ScopedPatchIsReady(c: Contract, scope: Scope, attrs: Attributes, m: Model, config: Model, plan: Model)
    requires Fits(scope, attrs) && GoodConfig(scope, attrs, config) && Settled(c, scope, attrs, m)
    requires IsPlan(scope, attrs, Some(m), config, plan)
    requires scope.Patches(Get(plan, scope.field), Get(m, scope.field))
    requires scope.Excluded(Get(m, scope.field).text) == []
    ensures PatchReady(attrs, m, plan)
  {
    forall k | k in attrs && Sent(attrs[k].kind)
      ensures !plan[k].Unknown? && Typed(CodingOf(attrs[k]), plan[k])
      ensures !m[k].Unknown? && Typed(CodingOf(attrs[k]), m[k])
      ensures Schema.Read(attrs[k].kind) ==> Keepable(attrs[k], m[k])
      ensures plan[k].Null? ==> m[k].Null? || attrs[k].kind == OptClear || attrs[k].kind == WriteOnly
    {
      PlannedOne(c, scope, attrs, Some(m), config, k);
      assert SettledOne(c, attrs[k], Get(m, scope.field).text, k, m[k]);
    }
  }

  /** A resource without a discriminator, such as a wireless device, which patches on every update. */
  predicate PlainConfig(attrs: Attributes, config: Model) {
    && config.Keys == attrs.Keys
    && (forall k :: k in attrs ==> !config[k].Unknown? && Typed(CodingOf(attrs[k]), config[k]))
    && (forall k :: k in attrs && attrs[k].kind == Required ==> Known(config[k]))
    && (forall k :: k in attrs && !Writable(attrs[k].kind) ==> config[k].Null?)
  }

  /** Every read leaves such a state: nothing is unknown, and what is read reads back. */
  predicate PlainState(attrs: Attributes, m: Model) {
    && m.Keys == attrs.Keys
    && forall k :: k in attrs ==>
         && !m[k].Unknown?
         && (Sent(attrs[k].kind) ==>
             Typed(CodingOf(attrs[k]), m[k]) && (Schema.Read(attrs[k].kind) ==> Keepable(attrs[k], m[k])))
  }

  lemma PlainPatchIsReady(attrs: Attributes, m: Model, config: Model)
    requires PlainConfig(attrs, config) && PlainState(attrs, m)
    ensures PatchReady(attrs, m, FrameworkPlan(attrs, Some(m), config))
  {
  }

  function PatchBody(attrs: Attributes, m: Model, plan: Model): Fields {
    Delta.Delta(Body(attrs, plan, false), Body(attrs, m, false))
  }

  /** The options after the server merged the patch. */
  function PatchedOptions(attrs: Attributes, m: Model, plan: Model, opts: Fields): Fields {
    Stored(Members(MergePatch(JObj(opts), JObj(PatchBody(attrs, m, plan)))))
  }

  lemma EncodesFlat(a: Attribute, v: Value)
    requires Known(v)
    ensures !Encode(CodingOf(a), v).JNull? && !Encode(CodingOf(a), v).JObj?
  {
  }

  lemma BodiesAreFlat(attrs: Attributes, m: Model)
    ensures Flat(Body(attrs, m, false)) && NullFree(Body(attrs, m, false))
  {
    forall k | k in Body(attrs, m, false)
      ensures !Body(attrs, m, false)[k].JNull? && !Body(attrs, m, false)[k].JObj?
    {
      EncodesFlat(attrs[k], m[k]);
    }
  }

  /** Every null in the patch is a planned removal of a value that the state held. */
  lemma NullsAreRemovals(attrs: Attributes, m: Model, plan: Model, k: string)
    requires PatchReady(attrs, m, plan)
    ensures k in PatchBody(attrs, m, plan) && PatchBody(attrs, m, plan)[k].JNull? <==>
            k in attrs && Sent(attrs[k].kind) && plan[k].Null? && Known(Get(m, k))
  {
    BodiesAreFlat(attrs, plan);
    BodiesAreFlat(attrs, m);
  }

  /** What a value is on the wire; null stands for an absent member. */
  function Wire(a: Attribute, v: Value): Json {
    if Known(v) then Encode(CodingOf(a), v) else JNull
  }

  /** Different values that are written alike: an integer-or-string text that is no canonical numeral. */
  lemma WrittenAlike(a: Attribute, v: Value, w: Value)
    requires Typed(CodingOf(a), v) && Typed(CodingOf(a), w) && !v.Unknown? && !w.Unknown?
    requires Wire(a, v) == Wire(a, w) && v != w
    ensures Known(v) && Known(w) && CodingOf(a) == AsIntOrStr && !(Faithful(CodingOf(a), v) && Faithful(CodingOf(a), w))
  {
    if Known(v) && Known(w) {
      if v.Texts? && w.Texts? {
        ElementsOfStrings(v.items);
        ElementsOfStrings(w.items);
      }
      if Faithful(CodingOf(a), v) && Faithful(CodingOf(a), w) {
        EncodeIsInjective(CodingOf(a), v, w);
      }
    }
  }

  lemma PatchNamesWire(attrs: Attributes, m: Model, plan: Model, k: string)
    requires PatchReady(attrs, m, plan)
    ensures k in PatchBody(attrs, m, plan) <==>
      k in attrs && Sent(attrs[k].kind) && Wire(attrs[k], plan[k]) != Wire(attrs[k], Get(m, k))
  {
    BodiesAreFlat(attrs, plan);
    BodiesAreFlat(attrs, m);
  }

  /**
   The patch changes what the plan changes: an attribute is named exactly when it is planned to differ
   on the wire. For a planned value that reads back that means exactly when its value differs.
   */
  lemma PatchNamesChanges(attrs: Attributes, m: Model, plan: Model, k: string)
    requires PatchReady(attrs, m, plan)
    ensures k in PatchBody(attrs, m, plan) <==>
      k in attrs && Sent(attrs[k].kind) && Wire(attrs[k], plan[k]) != Wire(attrs[k], Get(m, k))
    ensures k in attrs && Sent(attrs[k].kind) && ValueHolds(attrs[k], plan[k]) ==>
      (k in PatchBody(attrs, m, plan) <==> plan[k] != Get(m, k))
  {
    PatchNamesWire(attrs, m, plan, k);
    if k in attrs && Sent(attrs[k].kind) && plan[k] != Get(m, k)
      && Wire(attrs[k], plan[k]) == Wire(attrs[k], Get(m, k)) {
      WrittenAlike(attrs[k], plan[k], Get(m, k));
    }
  }

  /** The stored options after the patch, option by option. */
  lemma PatchedOption(attrs: Attributes, m: Model, plan: Model, opts: Fields, k: string)
    requires PatchReady(attrs, m, plan) && Sane(attrs, opts)
    ensures var opts' := PatchedOptions(attrs, m, plan, opts);
            if k in PatchBody(attrs, m, plan)
            then (k in opts' <==> Known(plan[k]) && Storable(Encode(CodingOf(attrs[k]), plan[k])))
                 && (k in opts' ==> opts'[k] == Encode(CodingOf(attrs[k]), plan[k]))
            else (k in opts' <==> k in opts) && (k in opts ==> opts'[k] == opts[k])
  {
    var planned, prior := Body(attrs, plan, false), Body(attrs, m, false);
    BodiesAreFlat(attrs, plan);
    BodiesAreFlat(attrs, m);
    FlatBodiesPatch(planned, prior, opts);
    PatchNamesChanges(attrs, m, plan, k);
    assert k in PatchBody(attrs, m, plan) <==> Named(planned, prior, k);
    assert Named(planned, prior, k) <==> Member(planned, k) != Member(prior, k);
  }

  /** A member of an answer that is no read-only attribute depends on its own option only. */
  lemma ViewAt(c: Contract, attrs: Attributes, v: string, opts: Fields, other: Fields, k: string)
    requires !ReadOnly(attrs, k) && (k in opts <==> k in other) && (k in opts ==> opts[k] == other[k])
    ensures var a, b := View(c, attrs, v, opts), View(c, attrs, v, other);
            (k in a <==> k in b) && (k in a ==> a[k] == b[k])
  {
  }

  lemma ReadOneAt(a: Attribute, obj: Fields, other: Fields, k: string, prior: Value)
    requires (k in obj <==> k in other) && (k in obj ==> obj[k] == other[k])
    ensures ReadOne(a, obj, k, prior) == ReadOne(a, other, k, prior)
  {
    DecodeDependsOnMember(CodingOf(a), obj, other, k, k, prior);
    assert Member(obj, k) == Member(other, k);
  }

  /** What an answer gives for an attribute whose option now is the planned value, or none. */
  lemma ChangedReadsBack(c: Contract, attrs: Attributes, v: string, opts: Fields, planned: Value, k: string)
    requires k in attrs && Sent(attrs[k].kind) && Schema.Read(attrs[k].kind)
    requires !planned.Unknown? && Typed(CodingOf(attrs[k]), planned)
    requires var a := attrs[k];
             (k in opts <==> Known(planned) && Storable(Encode(CodingOf(a), planned)))
             && (k in opts ==> opts[k] == Encode(CodingOf(a), planned))
    requires k in c.hidden(v) ==> planned == Null || planned == Texts([]) || planned == Str("")
    requires planned == Null || planned == Texts([]) ==> k in c.hidden(v) || c.defaults(v, k).JNull?
    requires !c.defaults(v, k).JNull? ==> Readable(attrs[k], c.defaults(v, k))
    ensures ReadOne(attrs[k], View(c, attrs, v, opts), k, planned) == planned <==> Keepable(attrs[k], planned)
  {
    var a, obj := attrs[k], View(c, attrs, v, opts);
    if planned == Str("") {
      if k in obj {
        ReadsValue(a, obj, k, planned);
      } else {
        ReadsNothing(a, obj, k, planned);
      }
    } else if Known(planned) && planned != Texts([]) {
      EncodedIsReadable(a, planned);
      assert k in obj && obj[k] == Encode(CodingOf(a), planned);
      ReadsValue(a, obj, k, planned);
    } else {
      assert JStrings([]) == [];
      assert k !in obj;
      ReadsNothing(a, obj, k, planned);
    }
  }

  lemma AcceptedChange(c: Contract, attrs: Attributes, v: string, m: Model, plan: Model, k: string)
    requires PatchReady(attrs, m, plan) && ScopeAccepts(c, v, PatchBody(attrs, m, plan))
    requires k in PatchBody(attrs, m, plan) && k in attrs && Sent(attrs[k].kind) && k in c.hidden(v)
    ensures plan[k] == Null || plan[k] == Texts([]) || plan[k] == Str("")
  {
    PatchNamesWire(attrs, m, plan, k);
    if Known(plan[k]) {
      assert PatchBody(attrs, m, plan)[k] == Encode(CodingOf(attrs[k]), plan[k]);
      assert plan[k].Texts? ==> |JStrings(plan[k].items)| == |plan[k].items|;
    }
  }

  /** A value that is written as the old one, but is not the old one, reads back as the old one. */
  lemma WrittenAlikeReadsOld(c: Contract, attrs: Attributes, v: string, opts: Fields, m: Model, planned: Value,
                             k: string)
    requires Agrees(c, attrs, v, opts, m) && k in attrs && Sent(attrs[k].kind) && Schema.Read(attrs[k].kind)
    requires CodingOf(attrs[k]) == AsIntOrStr && planned != m[k]
    ensures ReadOne(attrs[k], View(c, attrs, v, opts), k, planned) != planned
  {
  }

  lemma UnnamedReadsBack(c: Contract, attrs: Attributes, v: string, opts: Fields, m: Model, plan: Model, k: string)
    requires PatchReady(attrs, m, plan) && Agrees(c, attrs, v, opts, m)
    requires k in attrs && Sent(attrs[k].kind) && Schema.Read(attrs[k].kind) && k !in PatchBody(attrs, m, plan)
    ensures ReadOne(attrs[k], View(c, attrs, v, opts), k, plan[k]) == plan[k] <==> Keepable(attrs[k], plan[k])
  {
    PatchNamesWire(attrs, m, plan, k);
    if plan[k] != m[k] {
      WrittenAlike(attrs[k], plan[k], m[k]);
      WrittenAlikeReadsOld(c, attrs, v, opts, m, plan[k], k);
    }
  }

  lemma PatchedReadsBack(c: Contract, attrs: Attributes, v: string, opts: Fields, m: Model, plan: Model, k: string)
    requires PatchReady(attrs, m, plan) && Sane(attrs, opts) && Agrees(c, attrs, v, opts, m)
    requires ScopeAccepts(c, v, PatchBody(attrs, m, plan))
    requires k in attrs && Sent(attrs[k].kind) && Schema.Read(attrs[k].kind)
    requires attrs[k].ty == ListType || attrs[k].kind == OptClear ==> c.defaults(v, k).JNull?
    requires !c.defaults(v, k).JNull? ==> Readable(attrs[k], c.defaults(v, k))
    ensures ReadBack(attrs, View(c, attrs, v, PatchedOptions(attrs, m, plan, opts)), plan)[k] == plan[k]
        <==> Keepable(attrs[k], plan[k])
  {
    var opts' := PatchedOptions(attrs, m, plan, opts);
    PatchedOption(attrs, m, plan, opts, k);
    if k in PatchBody(attrs, m, plan) {
      PatchNamesWire(attrs, m, plan, k);
      if k in c.hidden(v) {
        AcceptedChange(c, attrs, v, m, plan, k);
      }
      if plan[k] == Texts([]) {
        ListCoding(attrs[k], plan[k]);
      }
      ChangedReadsBack(c, attrs, v, opts', plan[k], k);
    } else {
      ViewAt(c, attrs, v, opts, opts', k);
      ReadOneAt(attrs[k], View(c, attrs, v, opts), View(c, attrs, v, opts'), k, plan[k]);
      UnnamedReadsBack(c, attrs, v, opts, m, plan, k);
    }
  }

  /** What a patch needs of the server's defaults. */
  predicate PatchDefaults(c: Contract, attrs: Attributes, v: string) {
    forall k :: k in attrs ==>
      && (attrs[k].ty == ListType || attrs[k].kind == OptClear ==> c.defaults(v, k).JNull?)
      && (Sent(attrs[k].kind) && !c.defaults(v, k).JNull? ==> Readable(attrs[k], c.defaults(v, k)))
  }

  /** Whatever it changes, a patch keeps every option that the resource does not model. */
  lemma PatchKeepsUnmodelled(attrs: Attributes, opts: Fields, m: Model, plan: Model, k: string)
    requires PatchReady(attrs, m, plan) && Sane(attrs, opts) && k !in attrs
    ensures var opts' := PatchedOptions(attrs, m, plan, opts);
            (k in opts' <==> k in opts) && (k in opts ==> opts'[k] == opts[k])
  {
    PatchNamesWire(attrs, m, plan, k);
    PatchedOption(attrs, m, plan, opts, k);
  }

  /**
   When the server takes the PATCH, every settable attribute reads back as planned exactly when each
   planned value is one that reads back; and every option that the resource does not model, such as one
   of another handler, is still there unchanged in any case.
   */
  lemma PatchIsAsPlannedIff(c: Contract, attrs: Attributes, v: string, opts: Fields, m: Model, plan: Model)
    requires PatchReady(attrs, m, plan) && Sane(attrs, opts) && Agrees(c, attrs, v, opts, m)
    requires ScopeAccepts(c, v, PatchBody(attrs, m, plan)) && PatchDefaults(c, attrs, v)
    ensures var opts' := PatchedOptions(attrs, m, plan, opts);
            && (AsPlanned(attrs, plan, ReadBack(attrs, View(c, attrs, v, opts'), plan)) <==> ValuesHold(attrs, plan))
            && (forall k :: k !in attrs ==> (k in opts' <==> k in opts) && (k in opts ==> opts'[k] == opts[k]))
  {
    var opts' := PatchedOptions(attrs, m, plan, opts);
    var after := ReadBack(attrs, View(c, attrs, v, opts'), plan);
    forall k | k in attrs
      ensures (Writable(attrs[k].kind) && !plan[k].Unknown? ==> after[k] == plan[k]) <==> ValueHolds(attrs[k], plan[k])
    {
      if Sent(attrs[k].kind) && Schema.Read(attrs[k].kind) {
        PatchedReadsBack(c, attrs, v, opts, m, plan, k);
      }
    }
    forall k | k !in attrs
      ensures (k in opts' <==> k in opts) && (k in opts ==> opts'[k] == opts[k])
    {
      PatchKeepsUnmodelled(attrs, opts, m, plan, k);
    }
  }

  /** While something is planned to change, no read-only attribute is planned known. */
  lemma MarkedPlanIsConsistentIff(attrs: Attributes, plan: Model, after: Model)
    requires forall k :: k in attrs && k in plan && !Writable(attrs[k].kind) ==> plan[k].Unknown?
    ensures Consistent(attrs, plan, after) <==> AsPlanned(attrs, plan, after)
  {
    ConsistentIff(attrs, plan, after);
  }

  lemma PlainPlan(attrs: Attributes, m: Model, config: Model)
    requires PlainConfig(attrs, config) && PlainState(attrs, m)
    ensures var plan := FrameworkPlan(attrs, Some(m), config);
            && (ValuesHold(attrs, plan) <==> ValuesHold(attrs, config))
            && if Marks(attrs, Some(m), config)
               then forall k :: k in attrs && !Writable(attrs[k].kind) ==> plan[k].Unknown?
               else plan == m
  {
    var plan := FrameworkPlan(attrs, Some(m), config);
    assert !Marks(attrs, Some(m), config) ==> ProposedNew(attrs, Some(m), config) == m;
    forall k | k in attrs
      ensures ValueHolds(attrs[k], plan[k]) <==> ValueHolds(attrs[k], config[k])
    {
    }
  }

  /**
   A resource without a discriminator, updated by PATCH whenever something is proposed to change: the
   state is what a read of the router gave. After the update every attribute that was planned known
   reads back as planned exactly when every configured value is one that reads back, and every
   unmodelled option is kept. When nothing is proposed, nothing is planned.
   */
  lemma PlainUpdateIsConsistentIff(c: Contract, attrs: Attributes, opts: Fields, m: Model, config: Model)
    requires PlainConfig(attrs, config) && PlainState(attrs, m) && PatchDefaults(c, attrs, "") && c.hidden("") == {}
    requires Sane(attrs, opts) && Agrees(c, attrs, "", opts, m)
    ensures var plan := FrameworkPlan(attrs, Some(m), config);
            var opts' := PatchedOptions(attrs, m, plan, opts);
            if !Marks(attrs, Some(m), config) then plan == m
            else
              && (Consistent(attrs, plan, ReadBack(attrs, View(c, attrs, "", opts'), plan))
                  <==> ValuesHold(attrs, config))
              && (forall k :: k !in attrs ==> (k in opts' <==> k in opts) && (k in opts ==> opts'[k] == opts[k]))
  {
    var plan := FrameworkPlan(attrs, Some(m), config);
    PlainPlan(attrs, m, config);
    if Marks(attrs, Some(m), config) {
      PlainPatchIsReady(attrs, m, config);
      PatchIsAsPlannedIff(c, attrs, "", opts, m, plan);
      MarkedPlanIsConsistentIff(attrs, plan,
        ReadBack(attrs, View(c, attrs, "", PatchedOptions(attrs, m, plan, opts)), plan));
    }
  }

  /** The patch of a scoped update leaves the discriminator out, so the type gate lets it through. */
  lemma ScopedPatchPassesTheGate(c: Contract, scope: Scope, attrs: Attributes, m: Model, config: Model, plan: Model)
    requires Fits(scope, attrs) && GoodConfig(scope, attrs, config) && Settled(c, scope, attrs, m)
    requires IsPlan(scope, attrs, Some(m), config, plan)
    requires scope.Patches(Get(plan, scope.field), Get(m, scope.field))
    requires scope.Excluded(Get(m, scope.field).text) == []
    ensures GateAccepts(scope, PatchBody(attrs, m, plan))
  {
    ScopedPatchIsReady(c, scope, attrs, m, config, plan);
    PatchNamesChanges(attrs, m, plan, scope.field);
  }

  /** The patched options are sane again, and name the same discriminator. */
  lemma PatchedIsSane(attrs: Attributes, m: Model, plan: Model, opts: Fields)
    requires PatchReady(attrs, m, plan) && Sane(attrs, opts)
    ensures Sane(attrs, PatchedOptions(attrs, m, plan, opts))
  {
    var opts' := PatchedOptions(attrs, m, plan, opts);
    forall k | k in opts' && k in attrs && Sent(attrs[k].kind) && Schema.Read(attrs[k].kind)
      ensures Readable(attrs[k], opts'[k])
    {
      PatchNamesChanges(attrs, m, plan, k);
      PatchedOption(attrs, m, plan, opts, k);
      if k in PatchBody(attrs, m, plan) {
        assert JStrings([]) == [];
        EncodedIsReadable(attrs[k], plan[k]);
      }
    }
  }
}
