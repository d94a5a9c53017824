/**
 The attributes of a generated resource: what a request body holds, what a read overwrites, and how
 Terraform and the plugin framework plan them before the resource's own hook runs.
 */
module Schema {
  import opened Wrappers
  import opened Codec
  import opened FieldScope
  import opened Json

  datatype Type = StringType | Int64Type | BoolType | ListType

  datatype Kind = Required | OptComp | OptClear | WriteOnly | CreateOnly | ComputedBool | ComputedString | IntStr

  datatype Attribute = Attribute(ty: Type, kind: Kind)

  type Attributes = map<string, Attribute>

  /** The attributes that the server may fill in. */
  predicate Computed(kind: Kind) {
    kind == OptComp || kind == IntStr || kind == ComputedBool || kind == ComputedString
  }

  /** The attributes with the UseStateForUnknown plan modifier. */
  predicate KeepsState(kind: Kind) {
    kind == OptComp || kind == IntStr
  }

  /** The attributes that a caller can set. */
  predicate Writable(kind: Kind) {
    kind != ComputedBool && kind != ComputedString
  }

  /** The attributes that an update sends. */
  predicate Sent(kind: Kind) {
    Writable(kind) && kind != CreateOnly
  }

  /** The attributes that every answer overwrites. */
  predicate Read(kind: Kind) {
    kind != WriteOnly && kind != CreateOnly
  }

  function CodingOf(a: Attribute): Coding {
    if a.kind == IntStr then AsIntOrStr
    else match a.ty
         case ListType => AsList
         case Int64Type => AsInt64
         case BoolType => AsBool
         case StringType => AsStr
  }

  /** The request body as a whole: the known values of the attributes that the call sends. */
  function Body(attrs: Attributes, m: Model, create: bool): Fields {
    map k | k in attrs && (Sent(attrs[k].kind) || (create && attrs[k].kind == CreateOnly)) && Known(Get(m, k)) ::
      Encode(CodingOf(attrs[k]), Get(m, k))
  }

  function ReadOne(a: Attribute, obj: Fields, key: string, prior: Value): Value {
    match a.kind
    case WriteOnly => prior
    case CreateOnly => prior
    case ComputedBool => BoolValDefault(obj, key)
    case _ => Decode(CodingOf(a), obj, key, prior)
  }

  /** The model after a read: the write-only and create-only attributes keep their value. */
  function ReadBack(attrs: Attributes, obj: Fields, m: Model): Model {
    map k | k in attrs :: ReadOne(attrs[k], obj, k, Get(m, k))
  }

  /**
   A body holds a member for an attribute exactly when its value is known and the caller can set it, the
   create-only ones on a create alone, and the member has the JSON form of the value: a number for a
   numeral of an integer-or-string attribute, the text itself for any other string.
   */
  lemma BodyHolds(attrs: Attributes, m: Model, create: bool, k: string)
    ensures var body, v := Body(attrs, m, create), Get(m, k);
            && (k in body <==>
                 && k in attrs && v != Null && v != Unknown
                 && Writable(attrs[k].kind) && (attrs[k].kind == CreateOnly ==> create))
            && (k in body && Typed(CodingOf(attrs[k]), v) ==>
                 OnTheWire(if attrs[k].kind == IntStr then AsIntOrStr else AsStr, v, body[k]))
  {
    if k in Body(attrs, m, create) && Typed(CodingOf(attrs[k]), Get(m, k)) {
      AfterPuts(CodingOf(attrs[k]), map[], k, Get(m, k));
    }
  }

  /** A read keeps what the router never returns, and takes every other attribute from the answer by its type. */
  lemma ReadHolds(attrs: Attributes, obj: Fields, m: Model, k: string)
    requires k in attrs
    ensures var a, v := attrs[k], ReadBack(attrs, obj, m)[k];
            && (a.kind == WriteOnly || a.kind == CreateOnly ==> v == Get(m, k))
            && (a.kind == ComputedBool ==> v == Flag(Member(obj, k) == JBool(true)))
            && (Read(a.kind) && a.kind != ComputedBool && a.kind != IntStr ==>
                 match a.ty
                 case StringType => v == StrVal(obj, k)
                 case Int64Type => v == Int64Val(obj, k)
                 case BoolType => v == BoolVal(obj, k)
                 case ListType => v == ListValKeepEmpty(obj, k, Get(m, k)))
            && (a.kind == IntStr ==> v == StrVal(obj, k))
  {
    ReadsByType(obj, k, Get(m, k));
  }

  // ------------------------------------------- planning before the resource's hook

  /** Terraform's proposed new state. */
  function ProposedNew(attrs: Attributes, prior: Option<Model>, config: Model): Model {
    map k | k in attrs ::
      if !Get(config, k).Null? then Get(config, k)
      else if Computed(attrs[k].kind) && prior.Some? then Get(prior.value, k)
      else Null
  }

  /** The framework sees a change, so it marks Computed attributes without a configuration unknown. */
  predicate Marks(attrs: Attributes, prior: Option<Model>, config: Model) {
    prior.None? || ProposedNew(attrs, prior, config) != prior.value
  }

  function MarkedOne(a: Attribute, proposed: Value, configured: Value, marks: bool): Value {
    if marks && Computed(a.kind) && configured.Null? then Unknown else proposed
  }

  /** UseStateForUnknown: an unknown that the configuration does not cause becomes the prior value. */
  function KeptOne(a: Attribute, planned: Value, configured: Value, prior: Option<Model>, key: string): Value {
    if KeepsState(a.kind) && planned.Unknown? && !configured.Unknown? && prior.Some?
    then Get(prior.value, key)
    else planned
  }

  function FrameworkPlan(attrs: Attributes, prior: Option<Model>, config: Model): Model {
    var proposed := ProposedNew(attrs, prior, config);
    var marks := Marks(attrs, prior, config);
    map k | k in attrs ::
      KeptOne(attrs[k], MarkedOne(attrs[k], proposed[k], Get(config, k), marks), Get(config, k), prior, k)
  }

  function ComputedFlags(attrs: Attributes): map<string, bool> {
    map k | k in attrs :: Computed(attrs[k].kind)
  }

  function PlanRequest(attrs: Attributes, prior: Option<Model>, config: Model): FieldScope.Request {
    FieldScope.Request(Some(FrameworkPlan(attrs, prior, config)), prior, config, ComputedFlags(attrs))
  }

  /** The plan that Terraform applies. */
  function FullPlan(scope: Scope, attrs: Attributes, prior: Option<Model>, config: Model): Model {
    Modified(scope, PlanRequest(attrs, prior, config), FieldScope.Reply(FrameworkPlan(attrs, prior, config), [])).plan
  }

  /** A string that every update sends and every answer overwrites. */
  predicate Switchable(a: Attribute) {
    a.ty == StringType && (a.kind == Required || a.kind == OptComp || a.kind == OptClear)
  }

  /** The attribute list that a table needs: a string to switch on, which no rule nulls, and fields to null. */
  predicate Fits(scope: Scope, attrs: Attributes) {
    && scope.field in attrs && Switchable(attrs[scope.field])
    && scope.field !in scope.Scoped()
    && forall f :: f in scope.Scoped() ==> f in attrs && Writable(attrs[f].kind)
  }

  /** The plan of one attribute, given where it comes from. */
  function PlanOf(scope: Scope, attrs: Attributes, prior: Option<Model>, config: Model, k: string): Value
    requires k in attrs
  {
    var a, configured := attrs[k], Get(config, k);
    if !configured.Null? then configured
    else if !Computed(a.kind) then Null
    else
      var held := if prior.None? then Unknown
                  else if KeepsState(a.kind) || !Marks(attrs, prior, config) then Get(prior.value, k)
                  else Unknown;
      match Get(config, scope.field)
      case Unknown => if k in scope.Scoped() then Unknown else held
      case Str(v) =>
        var was := if prior.Some? then Get(prior.value, scope.field) else Null;
        if k in scope.Excluded(v) then Null
        else if was.Str? && was != Str(v) && k in scope.Excluded(was.text) then Unknown
        else held
      case _ => held
  }

  /** The three stages of planning together, for every attribute. */
  lemma FullPlanIs(scope: Scope, attrs: Attributes, prior: Option<Model>, config: Model, k: string)
    requires Fits(scope, attrs) && k in attrs
    requires Get(config, scope.field).Str? || Get(config, scope.field).Unknown?
    ensures Get(FullPlan(scope, attrs, prior, config), k) == PlanOf(scope, attrs, prior, config, k)
    ensures Get(FullPlan(scope, attrs, prior, config), scope.field) == Get(config, scope.field)
  {
    var req := PlanRequest(attrs, prior, config);
    var fp := FrameworkPlan(attrs, prior, config);
    assert Get(fp, scope.field) == Get(config, scope.field);
    assert Settable(req, k) <==> Computed(attrs[k].kind) && Get(config, k).Null?;
    PassesRefinePointwise(scope, req, k);
    PassesRefinePointwise(scope, req, scope.field);
  }

  lemma FullPlanKeys(scope: Scope, attrs: Attributes, prior: Option<Model>, config: Model)
    requires Fits(scope, attrs)
    requires Get(config, scope.field).Str? || Get(config, scope.field).Unknown?
    ensures FullPlan(scope, attrs, prior, config).Keys == attrs.Keys
  {
    var req := PlanRequest(attrs, prior, config);
    var fp := FrameworkPlan(attrs, prior, config);
    assert fp.Keys == attrs.Keys;
    var v, was := Get(fp, scope.field), if prior.Some? then Get(prior.value, scope.field) else Null;
    if v.Unknown? {
      SetAllKeys(req, scope.Scoped(), Unknown, FieldScope.Reply(fp, []));
    } else {
      TableInSchema(scope, req, v.text);
      SetAllKeys(req, scope.Excluded(v.text), Null, FieldScope.Reply(fp, []));
      if was.Str? {
        SetAllKeys(req, scope.Entering(was.text, v.text), Unknown,
          SetAll(req, scope.Excluded(v.text), Null, FieldScope.Reply(fp, [])));
      }
    }
  }

  lemma {:induction false} SetAllKeys(req: FieldScope.Request, fields: seq<string>, raw: Value, r: FieldScope.Reply)
    requires InSchema(req, fields) && r.errors == [] && r.plan.Keys == req.computed.Keys
    ensures var r1 := SetAll(req, fields, raw, r);
            r1.errors == [] && r1.plan.Keys == req.computed.Keys
  {
    if fields != [] {
      SetAllKeys(req, fields[1..], raw, SetOne(req, fields[0], raw, r));
    }
  }

  /** `plan` is what the three stages plan for every attribute. */
  predicate IsPlan(scope: Scope, attrs: Attributes, prior: Option<Model>, config: Model, plan: Model) {
    && plan.Keys == attrs.Keys
    && forall k :: k in attrs ==> plan[k] == PlanOf(scope, attrs, prior, config, k)
  }

  lemma FullPlanIsPlan(scope: Scope, attrs: Attributes, prior: Option<Model>, config: Model)
    requires Fits(scope, attrs)
    requires Get(config, scope.field).Str? || Get(config, scope.field).Unknown?
    ensures IsPlan(scope, attrs, prior, config, FullPlan(scope, attrs, prior, config))
  {
    FullPlanKeys(scope, attrs, prior, config);
    forall k | k in attrs
      ensures Get(FullPlan(scope, attrs, prior, config), k) == PlanOf(scope, attrs, prior, config, k)
    {
      FullPlanIs(scope, attrs, prior, config, k);
    }
  }
}
