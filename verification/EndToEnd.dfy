/**
 From the specification to the request: one specification gives the fields and the table, the table
 drives the planner, the emitted statements build the body, and the body obeys the entries that the
 table was compiled from.
 */
module EndToEnd {
  import opened Wrappers
  import opened Apply
  import opened Builder
  import opened Codec
  import opened Emit
  import opened FieldScope
  import opened Json
  import opened Router
  import opened Schema
  import opened ScopeCompiler
  import Spec

  /** What the specification says about one resource: its two schemas, and the request's demands. */
  datatype Specification = Specification(response: Spec.Sorted<Spec.Prop>, request: Spec.Sorted<Spec.Prop>,
                                         required: seq<string>, conds: seq<Cond>)

  datatype Resource = Resource(fields: seq<Field>, scope: Option<Scope>)

  function Names(props: Spec.Sorted<Spec.Prop>): set<string> {
    set i | 0 <= i < |props| :: props[i].0
  }

  /** buildResource and then applyScope; None when either stops the generator. */
  function Generate(d: Descriptor, spec: Specification): Option<Resource> {
    match Build(d, spec.response, Names(spec.request), spec.required)
    case None => None
    case Some(fields) =>
      match ScopeOf(spec.conds, WritableNames(fields), spec.request)
      case Failed(_) => None
      case Ok(scope) => if scope.Some? && !AllTaken(scope.value, fields) then None else Some(Resource(fields, scope))
  }

  /** The same fields up to their descriptions. */
  predicate SameFields(fields: seq<Field>, others: seq<Field>) {
    && |fields| == |others|
    && forall i :: 0 <= i < |fields| ==> fields[i].name == others[i].name && fields[i].attr == others[i].attr
  }

  /** The generator's loop body for one resource, with the descriptions changed in place. */
  method GenerateResource(d: Descriptor, spec: Specification) returns (r: Option<Resource>)
    ensures r.Some? <==> Generate(d, spec).Some?
    ensures r.Some? ==>
      r.value.scope == Generate(d, spec).value.scope && SameFields(r.value.fields, Generate(d, spec).value.fields)
  {
    var built := BuildResource(d, spec.response, Names(spec.request), spec.required);
    if built.None? {
      return None;
    }
    var fields := new Field[|built.value|](i requires 0 <= i < |built.value| => built.value[i]);
    assert fields[..] == built.value;
    var scope := ApplyScope(fields, spec.conds, spec.request);
    r := if scope.Failed? then None else Some(Resource(fields[..], scope.value));
  }

  predicate HasTable(d: Descriptor, spec: Specification) {
    Generate(d, spec).Some? && Generate(d, spec).value.scope.Some?
  }

  function TableOf(d: Descriptor, spec: Specification): Scope
    requires HasTable(d, spec)
  {
    Generate(d, spec).value.scope.value
  }

  function FieldsOf(d: Descriptor, spec: Specification): seq<Field>
    requires HasTable(d, spec)
  {
    Generate(d, spec).value.fields
  }

  function AttributesOf(d: Descriptor, spec: Specification): Attributes
    requires HasTable(d, spec)
  {
    AttrsOf(FieldsOf(d, spec))
  }

  // ------------------------------------------------------- the table fits the fields

  lemma TableIsCompiled(d: Descriptor, spec: Specification)
    requires HasTable(d, spec) && Spec.DistinctKeys(spec.response)
    ensures DistinctNames(FieldsOf(d, spec))
    ensures var t := Compile(spec.conds, WritableNames(FieldsOf(d, spec)));
            t.Ok? && t.value.field != "" && t.value.field == TableOf(d, spec).field
              && t.value.rules == TableOf(d, spec).rules
  {
    BuiltNamesAreDistinct(d, spec.response, Names(spec.request), spec.required);
  }

  /** Every field that a rule nulls is a settable attribute: applyScope refuses any other. */
  lemma ScopedIsSettable(d: Descriptor, spec: Specification, name: string)
    requires HasTable(d, spec) && Spec.DistinctKeys(spec.response) && name in TableOf(d, spec).Scoped()
    ensures name in AttributesOf(d, spec) && Writable(AttributesOf(d, spec)[name].kind)
  {
    var fields, rules := FieldsOf(d, spec), TableOf(d, spec).rules;
    TableIsCompiled(d, spec);
    RulesAreWritable(spec.conds, WritableNames(fields));
    ScopedAreWritable(rules, WritableNames(fields), name);
    var i :| 0 <= i < |fields| && Writable(fields[i].attr.kind) && fields[i].name == name;
    AttrsOfMembers(fields, i);
  }

  /** The discriminator is a plain settable string attribute, and no rule nulls it. */
  predicate SwitchesOnString(d: Descriptor, spec: Specification)
    requires HasTable(d, spec)
  {
    var scope, attrs := TableOf(d, spec), AttributesOf(d, spec);
    scope.field in attrs && Switchable(attrs[scope.field]) && scope.field !in scope.Scoped()
  }

  /**
   What the planner needs of the table follows from generating, but for the discriminator: neither
   applyScope nor buildResource looks at its attribute.
   */
  lemma TableFitsIff(d: Descriptor, spec: Specification)
    requires HasTable(d, spec) && Spec.DistinctKeys(spec.response)
    ensures Fits(TableOf(d, spec), AttributesOf(d, spec)) <==> SwitchesOnString(d, spec)
  {
    forall name | name in TableOf(d, spec).Scoped()
      ensures name in AttributesOf(d, spec) && Writable(AttributesOf(d, spec)[name].kind)
    {
      ScopedIsSettable(d, spec, name);
    }
  }

  // ------------------------------------------------------- the requests obey the entries

  /** What the emitted body statements send for a configuration, after planning. */
  function Sends(d: Descriptor, spec: Specification, prior: Option<Model>, config: Model, create: bool): Fields
    requires HasTable(d, spec)
  {
    ExecPuts(BodyProgram(FieldsOf(d, spec)), FullPlan(TableOf(d, spec), AttributesOf(d, spec), prior, config), create,
      map[])
  }

  lemma SendsBody(d: Descriptor, spec: Specification, prior: Option<Model>, config: Model, create: bool)
    requires HasTable(d, spec) && Spec.DistinctKeys(spec.response)
    ensures Sends(d, spec, prior, config, create)
         == Body(AttributesOf(d, spec), FullPlan(TableOf(d, spec), AttributesOf(d, spec), prior, config), create)
  {
    TableIsCompiled(d, spec);
    BodyProgramIsBody(FieldsOf(d, spec), FullPlan(TableOf(d, spec), AttributesOf(d, spec), prior, config), create);
  }

  /** The generator reads every switch as JSON Schema does, and property names are not empty. */
  predicate ReadsSwitches(spec: Specification) {
    AllFaithful(spec.conds) && Named(spec.conds)
  }

  /** The meaning of the entries on a request whose discriminator is the text v. */
  lemma EntriesMean(d: Descriptor, spec: Specification, request: Fields, v: string)
    requires HasTable(d, spec) && Spec.DistinctKeys(spec.response) && ReadsSwitches(spec)
    requires Member(request, TableOf(d, spec).field) == JStr(v)
    ensures SatisfiesAll(spec.conds, request) <==> HoldsNone(request, TableOf(d, spec).Excluded(v))
  {
    TableIsCompiled(d, spec);
    CompiledMeaning(spec.conds, WritableNames(FieldsOf(d, spec)), request, v);
  }

  /** What the body of a valid configuration holds for the fields that its discriminator excludes. */
  lemma ValidHolds(scope: Scope, attrs: Attributes, prior: Option<Model>, config: Model, create: bool)
    requires Fits(scope, attrs) && ValidConfig(scope, config)
    ensures var body := Body(attrs, FullPlan(scope, attrs, prior, config), create);
            var v := Get(config, scope.field).text;
            && Member(body, scope.field) == JStr(v)
            && HoldsNone(Stored(body), scope.Excluded(v))
            && (HoldsNone(body, scope.Excluded(v)) <==> forall k :: k in scope.Excluded(v) ==> k !in body)
  {
    FullPlanIsPlan(scope, attrs, prior, config);
    ReplaceBodyAsksOnly(scope, attrs, prior, config, create, FullPlan(scope, attrs, prior, config));
  }

  /**
   For every specification that generates a table which switches on a plain string, every prior state
   and every valid configuration that sets the discriminator: what the router keeps of the request
   satisfies each null-only entry of the specification; the request itself does so exactly when it
   carries no empty list for an excluded field.
   */
  lemma RequestsObeyTheSpec(d: Descriptor, spec: Specification, prior: Option<Model>, config: Model, create: bool)
    requires HasTable(d, spec) && Spec.DistinctKeys(spec.response) && ReadsSwitches(spec) && SwitchesOnString(d, spec)
    requires ValidConfig(TableOf(d, spec), config)
    ensures var request, v := Sends(d, spec, prior, config, create), Get(config, TableOf(d, spec).field).text;
            && (v != "" ==> SatisfiesAll(spec.conds, Stored(request)))
            && (SatisfiesAll(spec.conds, request) <==> forall k :: k in TableOf(d, spec).Excluded(v) ==> k !in request)
  {
    var request, v := Sends(d, spec, prior, config, create), Get(config, TableOf(d, spec).field).text;
    TableFitsIff(d, spec);
    SendsBody(d, spec, prior, config, create);
    ValidHolds(TableOf(d, spec), AttributesOf(d, spec), prior, config, create);
    EntriesMean(d, spec, request, v);
    if v != "" {
      StoredKeepsText(request, TableOf(d, spec).field, v);
      EntriesMean(d, spec, Stored(request), v);
    }
  }

  lemma StoredKeepsText(request: Fields, name: string, v: string)
    requires Member(request, name) == JStr(v) && v != ""
    ensures Member(Stored(request), name) == JStr(v)
  {
  }

  // ------------------------------------------------------- a discriminator that is not set

  /** A configured value that asks for something. */
  predicate Asks(v: Value) {
    Known(v) && v != Texts([]) && v != Str("")
  }

  /** With the discriminator held from the state, an excluded field is planned as it is configured. */
  lemma HeldSwitchPlans(scope: Scope, attrs: Attributes, m: Model, config: Model, w: string, k: string)
    requires Fits(scope, attrs) && attrs[scope.field].kind == OptComp
    requires Get(config, scope.field).Null? && Get(m, scope.field) == Str(w)
    ensures var plan := FullPlan(scope, attrs, Some(m), config);
            && Get(plan, scope.field) == Str(w)
            && (k in scope.Excluded(w) ==> Get(plan, k) == Get(config, k))
  {
    var req := PlanRequest(attrs, Some(m), config);
    assert Get(FrameworkPlan(attrs, Some(m), config), scope.field) == Str(w);
    ScopedMembers(scope.rules, w, scope.field);
    ScopedMembers(scope.rules, w, k);
    PassesRefinePointwise(scope, req, scope.field);
    PassesRefinePointwise(scope, req, k);
  }

  /** An update with this configuration asks for nothing in these fields. */
  predicate AsksForNone(attrs: Attributes, config: Model, names: seq<string>) {
    forall k :: k in names && k in attrs && Sent(attrs[k].kind) ==> !Asks(Get(config, k))
  }

  lemma HeldHoldsAt(scope: Scope, attrs: Attributes, m: Model, config: Model, w: string, k: string)
    requires Fits(scope, attrs) && attrs[scope.field].kind == OptComp
    requires Get(config, scope.field).Null? && Get(m, scope.field) == Str(w)
    requires k in scope.Excluded(w)
    ensures k in attrs
    ensures NullIn(Stored(Body(attrs, FullPlan(scope, attrs, Some(m), config), false)), k) <==>
      !(Sent(attrs[k].kind) && Asks(Get(config, k)))
  {
    ScopedMembers(scope.rules, w, k);
    HeldSwitchPlans(scope, attrs, m, config, w, k);
    if Known(Get(config, k)) {
      StoredAsks(attrs[k], Get(config, k));
    }
  }

  lemma HeldHolds(scope: Scope, attrs: Attributes, m: Model, config: Model, w: string)
    requires Fits(scope, attrs) && attrs[scope.field].kind == OptComp
    requires Get(config, scope.field).Null? && Get(m, scope.field) == Str(w)
    ensures var body := Body(attrs, FullPlan(scope, attrs, Some(m), config), false);
            && Member(body, scope.field) == JStr(w)
            && (HoldsNone(Stored(body), scope.Excluded(w)) <==> AsksForNone(attrs, config, scope.Excluded(w)))
  {
    HeldSwitchPlans(scope, attrs, m, config, w, scope.field);
    forall k | k in scope.Excluded(w)
      ensures k in attrs
      ensures NullIn(Stored(Body(attrs, FullPlan(scope, attrs, Some(m), config), false)), k) <==>
        !(Sent(attrs[k].kind) && Asks(Get(config, k)))
    {
      HeldHoldsAt(scope, attrs, m, config, w, k);
    }
  }

  /**
   validateConfig looks at a configured discriminator only. When an optional one is left out, the state's
   value is sent, and the request obeys the specification exactly when the configuration asks for
   nothing that this value does not take.
   */
  lemma UnsetSwitchObeysIff(d: Descriptor, spec: Specification, m: Model, config: Model, w: string)
    requires HasTable(d, spec) && Spec.DistinctKeys(spec.response) && ReadsSwitches(spec) && SwitchesOnString(d, spec)
    requires AttributesOf(d, spec)[TableOf(d, spec).field].kind == OptComp && w != ""
    requires Get(config, TableOf(d, spec).field).Null? && Get(m, TableOf(d, spec).field) == Str(w)
    ensures Reported(TableOf(d, spec), config) == []
    ensures SatisfiesAll(spec.conds, Stored(Sends(d, spec, Some(m), config, false))) <==>
      AsksForNone(AttributesOf(d, spec), config, TableOf(d, spec).Excluded(w))
  {
    var request := Sends(d, spec, Some(m), config, false);
    TableFitsIff(d, spec);
    SendsBody(d, spec, Some(m), config, false);
    HeldHolds(TableOf(d, spec), AttributesOf(d, spec), m, config, w);
    StoredKeepsText(request, TableOf(d, spec).field, w);
    EntriesMean(d, spec, Stored(request), w);
  }

  lemma StoredAsks(a: Attribute, v: Value)
    requires Known(v)
    ensures Storable(Encode(CodingOf(a), v)) <==> Asks(v)
    ensures !Encode(CodingOf(a), v).JNull?
  {
    assert v.Texts? ==> |JStrings(v.items)| == |v.items|;
  }

  // ------------------------------------------------------- the smallest specification that shows it

  function Text(enum: seq<Json>): Spec.Prop {
    Spec.Prop(Spec.Single("string"), false, false, false, false, enum, "")
  }

  /** An optional string `d` with the values a and b, and a string `f` that the value a does not take. */
  function Small(): Specification {
    var props := [("d", Text([JStr("a"), JStr("b")])), ("f", Text([]))];
    Specification(props, props, [], [SmallEntry()])
  }

  function SmallEntry(): Cond {
    Cond([("d", Switch(Some(JStr("a")), None))],
         [("f", Spec.Prop(Spec.Single("null"), false, false, false, false, [], ""))])
  }

  function Overlay(): Descriptor {
    Descriptor({}, {}, false, _ => "")
  }

  function SmallField(name: string): Field {
    Field(name, Attribute(StringType, OptComp), "")
  }

  function SmallRules(): seq<ScopeRule> {
    [ScopeRule(["a"], ["f"])]
  }

  lemma SmallAssembles()
    ensures Assemble([Emit(SmallField("d")), Emit(SmallField("f"))]) == Some([SmallField("d"), SmallField("f")])
  {
    var classes := [Emit(SmallField("d")), Emit(SmallField("f"))];
    assert classes[..1] == [Emit(SmallField("d"))] && [Emit(SmallField("d"))][..0] == [];
    assert Assemble([Emit(SmallField("d"))]) == Some([] + [SmallField("d")]);
    assert [] + [SmallField("d")] == [SmallField("d")];
    assert [SmallField("d")] + [SmallField("f")] == [SmallField("d"), SmallField("f")];
  }

  lemma SmallBuilds()
    ensures Build(Overlay(), Small().response, Names(Small().request), []) == Some([SmallField("d"), SmallField("f")])
    ensures WritableNames([SmallField("d"), SmallField("f")]) == {"d", "f"}
  {
    var props := Small().response;
    var writable := Names(Small().request);
    assert props[0].0 in writable && props[1].0 in writable;
    assert FieldOf(Overlay(), "d", props[0].1, writable, []) == Emit(SmallField("d"));
    assert FieldOf(Overlay(), "f", props[1].1, writable, []) == Emit(SmallField("f"));
    var classes := Classified(Overlay(), props, writable, []);
    assert classes == [Emit(SmallField("d")), Emit(SmallField("f"))];
    SmallAssembles();
    var fields := [SmallField("d"), SmallField("f")];
    assert fields[0].name in WritableNames(fields) && fields[1].name in WritableNames(fields);
  }

  lemma SmallCompiles()
    ensures Compile(Small().conds, {"d", "f"}) == Ok(Table("d", SmallRules()))
    ensures Strings([JStr("a"), JStr("b")]) == Ok(["a", "b"])
  {
    var c, writable := SmallEntry(), {"d", "f"};
    assert c.thens[1..] == [] && NullsOnly(c) == Ok(true);
    assert Keys(c.thens) == ["f"] && ["f"][1..] == [] && FirstOutside(["f"], writable) == None;
    assert [] + SmallRules() == SmallRules();
    assert Values(c.ifs[0].1) == Ok(["a"]);
    assert CompileOne(c, writable, Table("", [])) == Ok(Table("d", [] + SmallRules()));
    assert Small().conds[..0] == [];
    var enum := [JStr("a"), JStr("b")];
    assert enum[1..] == [JStr("b")] && [JStr("b")][1..] == [];
    assert Strings([JStr("b")]) == Ok(["b"] + []) && ["b"] + [] == ["b"] && ["a"] + ["b"] == ["a", "b"];
  }

  lemma SmallIsTaken()
    ensures AllTaken(Scope("d", ["a", "b"], SmallRules()), [SmallField("d"), SmallField("f")])
  {
    var known := ["a", "b"];
    assert known[..1] == ["a"];
    DocumentedValues(known, SmallRules(), "f", "b");
    ExcludedMembers(SmallRules(), "b", "f");
    assert "b" in Takes(known, SmallRules(), "f");
  }

  lemma SmallGenerates()
    ensures Generate(Overlay(), Small())
         == Some(Resource([SmallField("d"), SmallField("f")], Some(Scope("d", ["a", "b"], SmallRules()))))
  {
    SmallBuilds();
    SmallCompiles();
    SmallIsTaken();
    assert Lookup(Small().request, "d") == [JStr("a"), JStr("b")];
  }

  lemma SmallTable()
    ensures HasTable(Overlay(), Small()) && TableOf(Overlay(), Small()) == Scope("d", ["a", "b"], SmallRules())
    ensures AttributesOf(Overlay(), Small())
         == map["d" := Attribute(StringType, OptComp), "f" := Attribute(StringType, OptComp)]
    ensures ScopedBy(SmallRules()) == ["f"] && ExcludedBy(SmallRules(), "a") == ["f"]
  {
    var fields := [SmallField("d"), SmallField("f")];
    SmallGenerates();
    assert fields[..1] == [SmallField("d")] && [SmallField("d")][..0] == [];
    assert AttrsOf([SmallField("d")]) == map["d" := Attribute(StringType, OptComp)];
    assert SmallRules()[..0] == [];
  }

  lemma SmallIsRead()
    ensures ReadsSwitches(Small()) && Spec.DistinctKeys(Small().response)
  {
    assert "d" != "f";
  }

  function SmallState(): Model {
    map["d" := Str("a"), "f" := Null]
  }

  function SmallConfig(): Model {
    map["d" := Null, "f" := Str("x")]
  }

  lemma SmallAsks()
    ensures HasTable(Overlay(), Small()) && SwitchesOnString(Overlay(), Small())
    ensures AttributesOf(Overlay(), Small())[TableOf(Overlay(), Small()).field].kind == OptComp
    ensures !AsksForNone(AttributesOf(Overlay(), Small()), SmallConfig(), TableOf(Overlay(), Small()).Excluded("a"))
    ensures TableOf(Overlay(), Small()).field == "d"
    ensures Get(SmallConfig(), "d").Null? && Get(SmallState(), "d") == Str("a")
  {
    SmallTable();
    var attrs: Attributes := map["d" := Attribute(StringType, OptComp), "f" := Attribute(StringType, OptComp)];
    assert "f" in ExcludedBy(SmallRules(), "a") && "f" in attrs && Sent(attrs["f"].kind)
        && Asks(Get(SmallConfig(), "f"));
  }

  /**
   A state with `d = "a"` and a configuration of `f` alone: validateConfig lets it pass, and what the
   update sends breaks the entry.
   */
  lemma UnsetSwitchDisobeys()
    ensures HasTable(Overlay(), Small()) && SwitchesOnString(Overlay(), Small()) && ReadsSwitches(Small())
    ensures Reported(TableOf(Overlay(), Small()), SmallConfig()) == []
    ensures !SatisfiesAll(Small().conds, Stored(Sends(Overlay(), Small(), Some(SmallState()), SmallConfig(), false)))
  {
    SmallAsks();
    SmallIsRead();
    UnsetSwitchObeysIff(Overlay(), Small(), SmallState(), SmallConfig(), "a");
  }
}
