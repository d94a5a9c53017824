/**
 The planner of a resource whose discriminator decides which fields apply, such as the proto of a
 network interface (internal/provider/field_scope.go).
 */
module FieldScope {
  import opened Wrappers
  import opened Codec

  type Model = map<string, Value>

  function Get(m: Model, f: string): Value {
    if f in m then m[f] else Null
  }

  datatype ScopeRule = ScopeRule(values: seq<string>, fields: seq<string>)

  function ExcludedBy(rules: seq<ScopeRule>, v: string): seq<string>
    decreases |rules|
  {
    if rules == [] then []
    else
      var last := rules[|rules| - 1];
      ExcludedBy(rules[..|rules| - 1], v) + (if v in last.values then last.fields else [])
  }

  function ScopedBy(rules: seq<ScopeRule>): seq<string>
    decreases |rules|
  {
    if rules == [] then [] else ScopedBy(rules[..|rules| - 1]) + rules[|rules| - 1].fields
  }

  datatype Scope = Scope(field: string, known: seq<string>, rules: seq<ScopeRule>) {
    /** Every field of a rule that switches on `v`; nothing for a value that occurs in no rule. */
    function Excluded(v: string): seq<string> {
      ExcludedBy(rules, v)
    }

    function Scoped(): seq<string> {
      ScopedBy(rules)
    }

    /** Whether an update is a merge PATCH: the value stays, and the server does not model it. */
    predicate Patches(planned: Value, prior: Value) {
      planned.Str? && planned == prior && planned.text !in known
    }

    /** The fields that the new value takes and the prior value did not. */
    function Entering(prior: string, v: string): seq<string> {
      Without(Excluded(prior), Excluded(v))
    }

    method ComputeExcluded(v: string) returns (out: seq<string>)
      ensures out == Excluded(v)
    {
      out := [];
      for i := 0 to |rules|
        invariant out == ExcludedBy(rules[..i], v)
      {
        assert rules[..i + 1][..i] == rules[..i];
        if v in rules[i].values {
          out := out + rules[i].fields;
        }
      }
      assert rules[..|rules|] == rules;
    }

    method ComputeScoped() returns (out: seq<string>)
      ensures out == Scoped()
    {
      out := [];
      for i := 0 to |rules|
        invariant out == ScopedBy(rules[..i])
      {
        assert rules[..i + 1][..i] == rules[..i];
        out := out + rules[i].fields;
      }
      assert rules[..|rules|] == rules;
    }
  }

  /** slices.DeleteFunc with membership in `gone`. */
  function Without(xs: seq<string>, gone: seq<string>): seq<string> {
    if xs == [] then []
    else (if xs[0] in gone then [] else [xs[0]]) + Without(xs[1..], gone)
  }

  lemma {:induction false} WithoutMembers(xs: seq<string>, gone: seq<string>, f: string)
    ensures f in Without(xs, gone) <==> f in xs && f !in gone
  {
    if xs != [] {
      WithoutMembers(xs[1..], gone, f);
    }
  }

  lemma {:induction false} ExcludedMembers(rules: seq<ScopeRule>, v: string, f: string)
    ensures f in ExcludedBy(rules, v) <==> exists i :: 0 <= i < |rules| && v in rules[i].values && f in rules[i].fields
    decreases |rules|
  {
    if rules != [] {
      var front, last := rules[..|rules| - 1], rules[|rules| - 1];
      ExcludedMembers(front, v, f);
      if v in last.values && f in last.fields {
        assert rules[|rules| - 1] == last;
      }
      if f in ExcludedBy(front, v) {
        var i :| 0 <= i < |front| && v in front[i].values && f in front[i].fields;
        assert rules[i] == front[i];
      }
      if exists i :: 0 <= i < |rules| && v in rules[i].values && f in rules[i].fields {
        var i :| 0 <= i < |rules| && v in rules[i].values && f in rules[i].fields;
        assert i < |front| ==> front[i] == rules[i];
      }
    }
  }

  /** A rule excludes all of its fields, in its own order, or none, and comes after those before it. */
  lemma RuleComesLast(rules: seq<ScopeRule>, r: ScopeRule, v: string)
    ensures ExcludedBy(rules + [r], v) == ExcludedBy(rules, v) + if v in r.values then r.fields else []
    ensures ScopedBy(rules + [r]) == ScopedBy(rules) + r.fields
  {
    assert (rules + [r])[..|rules|] == rules;
  }

  /** A table lists its fields rule by rule, in its own order. */
  lemma {:induction false} ExcludedAppend(a: seq<ScopeRule>, b: seq<ScopeRule>, v: string)
    ensures ExcludedBy(a + b, v) == ExcludedBy(a, v) + ExcludedBy(b, v)
    decreases |b|
  {
    if b == [] {
      assert a + b == a;
    } else {
      var front, last := b[..|b| - 1], b[|b| - 1];
      ExcludedAppend(a, front, v);
      RuleComesLast(a + front, last, v);
      assert a + b == a + front + [last];
      AppendTwice(ExcludedBy(a, v), ExcludedBy(front, v), if v in last.values then last.fields else []);
    }
  }

  lemma {:induction false} ScopedAppend(a: seq<ScopeRule>, b: seq<ScopeRule>)
    ensures ScopedBy(a + b) == ScopedBy(a) + ScopedBy(b)
    decreases |b|
  {
    if b == [] {
      assert a + b == a;
    } else {
      var front, last := b[..|b| - 1], b[|b| - 1];
      ScopedAppend(a, front);
      RuleComesLast(a + front, last, "");
      assert a + b == a + front + [last];
      AppendTwice(ScopedBy(a), ScopedBy(front), last.fields);
    }
  }

  lemma {:induction false} ScopedMembers(rules: seq<ScopeRule>, v: string, f: string)
    ensures f in ExcludedBy(rules, v) ==> f in ScopedBy(rules)
    decreases |rules|
  {
    if rules != [] {
      ScopedMembers(rules[..|rules| - 1], v, f);
    }
  }

  // --------------------------------------------------------------- validateConfig

  /** The values that uapi refuses for a field that does not apply: an empty list asks for nothing. */
  predicate Refusable(v: Value) {
    Known(v) && v != Texts([])
  }

  function RefusedAmong(fields: seq<string>, config: Model): seq<string>
    decreases |fields|
  {
    if fields == [] then []
    else
      var last := fields[|fields| - 1];
      RefusedAmong(fields[..|fields| - 1], config) + (if Refusable(Get(config, last)) then [last] else [])
  }

  /** The attributes that uapi would refuse, in the order of the table. */
  function Refused(scope: Scope, config: Model): seq<string> {
    var v := Get(config, scope.field);
    if v.Str? then RefusedAmong(scope.Excluded(v.text), config) else []
  }

  /** The diagnostics and the planned values that the framework hands to the hooks. */
  class Response {
    var plan: Model
    var errors: seq<string>

    constructor (plan: Model)
      ensures this.plan == plan && errors == []
    {
      this.plan, errors := plan, [];
    }
  }

  /** What validateConfig reports: the loop tests for errors before each field, so the first one ends it. */
  function Reported(scope: Scope, config: Model): seq<string> {
    var refused := Refused(scope, config);
    if refused == [] then [] else [refused[0]]
  }

  /** The configuration sets the field to something known other than an empty list. */
  predicate AsksFor(config: Model, f: string) {
    Known(Get(config, f)) && Get(config, f) != Texts([])
  }

  predicate AsksFirstFor(fields: seq<string>, config: Model, i: nat) {
    i < |fields| && AsksFor(config, fields[i]) && forall j :: 0 <= j < i ==> !AsksFor(config, fields[j])
  }

  /**
   `errors` names the first field, in the order of the table, that the discriminator value does not take
   and that the configuration asks for; none, when there is none.
   */
  predicate NamesFirst(scope: Scope, config: Model, errors: seq<string>) {
    var v := Get(config, scope.field);
    var fields := if v.Str? then scope.Excluded(v.text) else [];
    if errors == [] then forall f :: f in fields ==> !AsksFor(config, f)
    else exists i :: 0 <= i < |fields| && AsksFirstFor(fields, config, i) && errors == [fields[i]]
  }

  lemma {:induction false} FirstRefused(fields: seq<string>, config: Model) returns (i: nat)
    ensures if RefusedAmong(fields, config) == [] then forall f :: f in fields ==> !AsksFor(config, f)
            else AsksFirstFor(fields, config, i) && RefusedAmong(fields, config)[0] == fields[i]
    decreases |fields|
  {
    i := 0;
    if fields != [] {
      var n := |fields| - 1;
      i := FirstRefused(fields[..n], config);
      assert fields == fields[..n] + [fields[n]];
      if RefusedAmong(fields[..n], config) == [] {
        i := n;
      }
    }
  }

  /** A configuration is reported exactly when it asks for a field that does not apply, by the first such field. */
  lemma ReportedIsFirst(scope: Scope, config: Model)
    ensures NamesFirst(scope, config, Reported(scope, config))
  {
    var v := Get(config, scope.field);
    if v.Str? {
      var i := FirstRefused(scope.Excluded(v.text), config);
    }
  }

  method ValidateConfig(scope: Scope, config: Model, resp: Response)
    modifies resp`errors
    ensures resp.errors == old(resp.errors) + if old(resp.errors) == [] then Reported(scope, config) else []
    ensures old(resp.errors) == [] ==> NamesFirst(scope, config, resp.errors)
  {
    var v := Get(config, scope.field);
    if resp.errors == [] && v.Str? {
      var excluded := scope.ComputeExcluded(v.text);
      for i := 0 to |excluded|
        invariant |resp.errors| <= 1 && resp.errors <= RefusedAmong(excluded[..i], config)
        invariant resp.errors == [] ==> RefusedAmong(excluded[..i], config) == []
      {
        assert excluded[..i + 1][..i] == excluded[..i];
        if resp.errors != [] {
          RefusedPrefix(excluded, i, config);
          break;
        }
        var cfg := Get(config, excluded[i]);
        if Known(cfg) && !(cfg.Texts? && |cfg.items| == 0) {
          resp.errors := resp.errors + [excluded[i]];
        }
      }
      assert excluded[..|excluded|] == excluded;
    }
    ReportedIsFirst(scope, config);
  }

  lemma {:induction false} RefusedPrefix(fields: seq<string>, n: nat, config: Model)
    requires n <= |fields|
    ensures RefusedAmong(fields[..n], config) <= RefusedAmong(fields, config)
    decreases |fields|
  {
    if n < |fields| {
      RefusedPrefix(fields[..|fields| - 1], n, config);
      assert fields[..|fields| - 1][..n] == fields[..n];
    } else {
      assert fields[..n] == fields;
    }
  }

  lemma {:induction false} RefusedMembers(fields: seq<string>, config: Model, f: string)
    ensures f in RefusedAmong(fields, config) <==> f in fields && Refusable(Get(config, f))
    decreases |fields|
  {
    if fields != [] {
      RefusedMembers(fields[..|fields| - 1], config, f);
      assert f in fields <==> f in fields[..|fields| - 1] || f == fields[|fields| - 1];
    }
  }

  /**
   validateConfig passes a configuration exactly when it sets no field that its discriminator value
   does not take, an empty list aside.
   */
  lemma ValidIff(scope: Scope, config: Model, v: string)
    requires Get(config, scope.field) == Str(v)
    ensures Reported(scope, config) == [] <==> forall f :: f in scope.Excluded(v) ==> !Refusable(Get(config, f))
  {
    forall f
      ensures f in Refused(scope, config) <==> f in scope.Excluded(v) && Refusable(Get(config, f))
    {
      RefusedMembers(scope.Excluded(v), config, f);
    }
    if Refused(scope, config) != [] {
      assert Refused(scope, config)[0] in Refused(scope, config);
    }
  }

  /**
   One run of validateConfig reports every attribute that uapi would refuse exactly when no two
   different ones are refused.
   */
  lemma AllReportedIff(scope: Scope, config: Model, v: string)
    requires Get(config, scope.field) == Str(v)
    ensures (forall f :: f in Refused(scope, config) ==> f in Reported(scope, config)) <==>
      forall f, g :: f in scope.Excluded(v) && g in scope.Excluded(v) && f != g ==>
        !Refusable(Get(config, f)) || !Refusable(Get(config, g))
  {
    var refused := Refused(scope, config);
    forall f
      ensures f in refused <==> f in scope.Excluded(v) && Refusable(Get(config, f))
    {
      RefusedMembers(scope.Excluded(v), config, f);
    }
    if refused != [] {
      assert refused[0] in refused;
    }
  }

  // ------------------------------------------------------------------ modifyPlan

  /** `computed` holds every attribute of the schema; `plan` is absent on a destroy. */
  datatype Request = Request(plan: Option<Model>, state: Option<Model>, config: Model, computed: map<string, bool>)

  datatype Reply = Reply(plan: Model, errors: seq<string>)

  predicate Settable(req: Request, f: string) {
    f in req.computed && req.computed[f] && Get(req.config, f).Null?
  }

  /** The loop body of `plan` for one field. */
  function SetOne(req: Request, f: string, raw: Value, r: Reply): Reply {
    if f !in req.computed then r.(errors := r.errors + [f])
    else if r.errors != [] || !Settable(req, f) then r
    else r.(plan := r.plan[f := raw])
  }

  function SetAll(req: Request, fields: seq<string>, raw: Value, r: Reply): Reply {
    if fields == [] then r
    else
      var r1 := SetOne(req, fields[0], raw, r);
      if r1.errors != [] then r1 else SetAll(req, fields[1..], raw, r1)
  }

  /** The two passes of modifyPlan. */
  function Modified(scope: Scope, req: Request, r: Reply): Reply {
    if req.plan.None? then r
    else if scope.field !in req.computed then r.(errors := r.errors + [scope.field])
    else
      var v := Get(req.plan.value, scope.field);
      var prior := if req.state.Some? then Get(req.state.value, scope.field) else Null;
      if r.errors != [] || v.Null? then r
      else if v.Unknown? then SetAll(req, scope.Scoped(), Unknown, r)
      else if !v.Str? then r
      else
        var r1 := SetAll(req, scope.Excluded(v.text), Null, r);
        if !prior.Str? || prior == v then r1
        else SetAll(req, scope.Entering(prior.text, v.text), Unknown, r1)
  }

  /** fieldScope.plan. */
  method Plan(req: Request, fields: seq<string>, raw: Value, resp: Response)
    modifies resp
    ensures Reply(resp.plan, resp.errors) == SetAll(req, fields, raw, Reply(old(resp.plan), old(resp.errors)))
  {
    ghost var r0 := Reply(resp.plan, resp.errors);
    var i := 0;
    while i < |fields|
      invariant 0 <= i <= |fields|
      invariant SetAll(req, fields, raw, r0) == SetAll(req, fields[i..], raw, Reply(resp.plan, resp.errors))
    {
      var f := fields[i];
      assert fields[i..][1..] == fields[i + 1..];
      if f !in req.computed {
        resp.errors := resp.errors + [f];
      }
      if resp.errors != [] {
        return;
      }
      if req.computed[f] && Get(req.config, f).Null? {
        resp.plan := resp.plan[f := raw];
      }
      i := i + 1;
    }
  }

  method ModifyPlan(scope: Scope, req: Request, resp: Response)
    requires req.plan.Some? ==> var v := Get(req.plan.value, scope.field); v.Null? || v.Unknown? || v.Str?
    modifies resp
    ensures Reply(resp.plan, resp.errors) == Modified(scope, req, Reply(old(resp.plan), old(resp.errors)))
  {
    if req.plan.None? {
      return;
    }
    if scope.field !in req.computed {
      resp.errors := resp.errors + [scope.field];
      return;
    }
    var v, prior := Get(req.plan.value, scope.field), Null;
    if req.state.Some? {
      prior := Get(req.state.value, scope.field);
    }
    if resp.errors != [] || v.Null? {
      return;
    }
    if v.Unknown? {
      var all := scope.ComputeScoped();
      Plan(req, all, Unknown, resp);
      return;
    }
    var excluded := scope.ComputeExcluded(v.text);
    Plan(req, excluded, Null, resp);
    if !prior.Str? || prior == v {
      return;
    }
    var gone := scope.ComputeExcluded(prior.text);
    Plan(req, Without(gone, excluded), Unknown, resp);
  }

  // ------------------------------------------------- what the passes amount to

  /** One field of the modified plan, without loops. */
  function PlannedField(scope: Scope, req: Request, f: string): Value
    requires req.plan.Some?
  {
    var current := Get(req.plan.value, f);
    if !Settable(req, f) then current
    else
      match Get(req.plan.value, scope.field)
      case Unknown => if f in scope.Scoped() then Unknown else current
      case Str(v) =>
        if f in scope.Excluded(v) then Null
        else if Enters(scope, req, v, f) then Unknown
        else current
      case _ => current
  }

  predicate Enters(scope: Scope, req: Request, v: string, f: string) {
    && req.state.Some?
    && var prior := Get(req.state.value, scope.field);
    && prior.Str? && prior != Str(v)
    && f in scope.Excluded(prior.text) && f !in scope.Excluded(v)
  }

  predicate InSchema(req: Request, fields: seq<string>) {
    forall f :: f in fields ==> f in req.computed
  }

  lemma {:induction false} SetAllAt(req: Request, fields: seq<string>, raw: Value, r: Reply, f: string)
    requires InSchema(req, fields) && r.errors == []
    ensures var r1 := SetAll(req, fields, raw, r);
            && r1.errors == []
            && r1.plan.Keys >= r.plan.Keys
            && (f in r1.plan ==> f in r.plan || f in fields)
            && Get(r1.plan, f) == if f in fields && Settable(req, f) then raw else Get(r.plan, f)
  {
    if fields != [] {
      SetAllAt(req, fields[1..], raw, SetOne(req, fields[0], raw, r), f);
      assert f in fields <==> f == fields[0] || f in fields[1..];
    }
  }

  lemma TableInSchema(scope: Scope, req: Request, v: string)
    requires InSchema(req, scope.Scoped())
    ensures InSchema(req, scope.Excluded(v))
    ensures forall p: string :: InSchema(req, scope.Entering(p, v))
  {
    forall f | f in scope.Excluded(v)
      ensures f in req.computed
    {
      ScopedMembers(scope.rules, v, f);
    }
    forall p: string, f | f in scope.Entering(p, v)
      ensures f in req.computed
    {
      WithoutMembers(scope.Excluded(p), scope.Excluded(v), f);
      ScopedMembers(scope.rules, p, f);
    }
  }

  /** The table only names attributes, and the discriminator of a plan is a string attribute. */
  predicate Ready(scope: Scope, req: Request) {
    && req.plan.Some?
    && scope.field in req.computed && InSchema(req, scope.Scoped())
    && var v := Get(req.plan.value, scope.field); v.Null? || v.Unknown? || v.Str?
  }

  /**
   The two looping passes refine the pointwise plan for every table, repeated fields and rules
   included: a field that the configuration sets or that is not Computed stays, an excluded field is
   null, an entering field or a field under an unknown discriminator is unknown, the rest stays.
   */
  lemma PassesRefinePointwise(scope: Scope, req: Request, f: string)
    requires Ready(scope, req)
    ensures var r := Modified(scope, req, Reply(req.plan.value, []));
            r.errors == [] && Get(r.plan, f) == PlannedField(scope, req, f)
  {
    var r0 := Reply(req.plan.value, []);
    var v := Get(req.plan.value, scope.field);
    var prior := if req.state.Some? then Get(req.state.value, scope.field) else Null;
    if v.Unknown? {
      SetAllAt(req, scope.Scoped(), Unknown, r0, f);
    } else if v.Str? {
      TableInSchema(scope, req, v.text);
      SetAllAt(req, scope.Excluded(v.text), Null, r0, f);
      if prior.Str? && prior != v {
        var r1 := SetAll(req, scope.Excluded(v.text), Null, r0);
        SetAllAt(req, scope.Entering(prior.text, v.text), Unknown, r1, f);
        WithoutMembers(scope.Excluded(prior.text), scope.Excluded(v.text), f);
      }
    }
  }

  /**
   A plan under an unknown discriminator promises nothing that a later value breaks: whatever the
   discriminator turns out to be, the plan then gives each other field the value that it was planned
   with, unless it was left unknown. Terraform demands that of every plan.
   */
  lemma UnknownPlanIsSafe(scope: Scope, req: Request, v: string, f: string)
    requires Ready(scope, req) && Get(req.plan.value, scope.field).Unknown? && f != scope.field
    ensures var early := Modified(scope, req, Reply(req.plan.value, []));
            var known := req.(plan := Some(req.plan.value[scope.field := Str(v)]));
            var late := Modified(scope, known, Reply(known.plan.value, []));
            Get(early.plan, f) == Unknown || Get(early.plan, f) == Get(late.plan, f)
  {
    var known := req.(plan := Some(req.plan.value[scope.field := Str(v)]));
    PassesRefinePointwise(scope, req, f);
    PassesRefinePointwise(scope, known, f);
    ScopedMembers(scope.rules, v, f);
    if req.state.Some? && Get(req.state.value, scope.field).Str? {
      ScopedMembers(scope.rules, Get(req.state.value, scope.field).text, f);
    }
  }

  /** A pass over fields that are not all in the schema stops at one that is not, and reports it. */
  lemma {:induction false} SetAllFailsIff(req: Request, fields: seq<string>, raw: Value, r: Reply)
    requires r.errors == []
    ensures var r1 := SetAll(req, fields, raw, r);
            && (r1.errors == [] <==> InSchema(req, fields))
            && (r1.errors != [] ==> exists f :: f in fields && f !in req.computed && r1.errors == [f])
  {
    if fields != [] {
      var r1 := SetOne(req, fields[0], raw, r);
      if r1.errors == [] {
        SetAllFailsIff(req, fields[1..], raw, r1);
        assert forall f :: f in fields <==> f == fields[0] || f in fields[1..];
      } else {
        assert fields[0] in fields && r1.errors == [fields[0]];
      }
    }
  }

  /**
   The hook fails exactly when the discriminator, or a field that it would have to plan, is no attribute;
   a destroy and a null discriminator plan nothing.
   */
  lemma ModifyFailsIff(scope: Scope, req: Request)
    ensures var p := if req.plan.Some? then req.plan.value else map[];
            var v, prior := Get(p, scope.field), if req.state.Some? then Get(req.state.value, scope.field) else Null;
            Modified(scope, req, Reply(p, [])).errors == [] <==>
              || req.plan.None?
              || (&& scope.field in req.computed
                  && (v.Unknown? ==> InSchema(req, scope.Scoped()))
                  && (v.Str? ==> InSchema(req, scope.Excluded(v.text)))
                  && (v.Str? && prior.Str? && prior != v ==> InSchema(req, scope.Entering(prior.text, v.text))))
  {
    if req.plan.Some? {
      var v, r := Get(req.plan.value, scope.field), Reply(req.plan.value, []);
      var prior := if req.state.Some? then Get(req.state.value, scope.field) else Null;
      if v.Unknown? {
        SetAllFailsIff(req, scope.Scoped(), Unknown, r);
      } else if v.Str? {
        SetAllFailsIff(req, scope.Excluded(v.text), Null, r);
        var r1 := SetAll(req, scope.Excluded(v.text), Null, r);
        if r1.errors == [] && prior.Str? {
          SetAllFailsIff(req, scope.Entering(prior.text, v.text), Unknown, r1);
        } else if prior.Str? && prior != v {
          StopsAtErrors(req, scope.Entering(prior.text, v.text), Unknown, r1);
        }
      }
    }
  }

  lemma StopsAtErrors(req: Request, fields: seq<string>, raw: Value, r: Reply)
    requires r.errors != []
    ensures SetAll(req, fields, raw, r).errors != []
  {
  }

  /** The null pass and the unknown pass touch disjoint fields, so their order does not matter. */
  lemma PassesCommute(scope: Scope, req: Request, r: Reply, prior: string, v: string, f: string)
    requires InSchema(req, scope.Scoped()) && r.errors == []
    ensures !(f in scope.Excluded(v) && f in scope.Entering(prior, v))
    ensures Get(SetAll(req, scope.Entering(prior, v), Unknown, SetAll(req, scope.Excluded(v), Null, r)).plan, f)
         == Get(SetAll(req, scope.Excluded(v), Null, SetAll(req, scope.Entering(prior, v), Unknown, r)).plan, f)
  {
    TableInSchema(scope, req, v);
    WithoutMembers(scope.Excluded(prior), scope.Excluded(v), f);
    var a, b := SetAll(req, scope.Excluded(v), Null, r), SetAll(req, scope.Entering(prior, v), Unknown, r);
    SetAllAt(req, scope.Excluded(v), Null, r, f);
    SetAllAt(req, scope.Entering(prior, v), Unknown, r, f);
    SetAllAt(req, scope.Entering(prior, v), Unknown, a, f);
    SetAllAt(req, scope.Excluded(v), Null, b, f);
  }

  /** Planning again from the modified plan changes nothing, when the table cannot set its own field. */
  lemma ModifyIsIdempotent(scope: Scope, req: Request, f: string)
    requires Ready(scope, req) && (scope.field in scope.Scoped() ==> !Settable(req, scope.field))
    ensures var once := Modified(scope, req, Reply(req.plan.value, []));
            var again := req.(plan := Some(once.plan));
            Get(Modified(scope, again, once).plan, f) == Get(once.plan, f)
  {
    var once := Modified(scope, req, Reply(req.plan.value, []));
    var again := req.(plan := Some(once.plan));
    PassesRefinePointwise(scope, req, f);
    PassesRefinePointwise(scope, req, scope.field);
    var v := Get(req.plan.value, scope.field);
    if v.Str? {
      ScopedMembers(scope.rules, v.text, scope.field);
      if req.state.Some? && Get(req.state.value, scope.field).Str? {
        ScopedMembers(scope.rules, Get(req.state.value, scope.field).text, scope.field);
      }
    }
    assert once == Reply(again.plan.value, []);
    PassesRefinePointwise(scope, again, f);
  }
}
