/**
 `applyScope` (internal/gen/scope.go): the null-only `allOf` entries of a request schema, compiled to
 the table that the planner interprets, and to the values that the documentation names.
 */
module ScopeCompiler {
  import opened Wrappers
  import opened FieldScope
  import opened Json
  import opened Schema
  import opened Spec
  import opened Builder

  /** What an `if` says about one property. */
  datatype Switch = Switch(const_: Option<Json>, enum: Option<seq<string>>)

  datatype Cond = Cond(ifs: Sorted<Switch>, thens: Sorted<Prop>)

  datatype Failure = Mixed | Switches(n: nat) | TwoDiscriminators | NonStringConst | NotWritable(name: string)
                   | NoEnum | NonStringEnum | NobodyTakes(name: string)

  // ------------------------------------------------- what the entries mean

  predicate SwitchAccepts(sw: Switch, j: Json) {
    && (sw.const_.Some? ==> j == sw.const_.value)
    && (sw.enum.Some? ==> j.JStr? && j.text in sw.enum.value)
  }

  /** A JSON Schema `if` with `properties`: each named property that is present matches. */
  predicate Applies(c: Cond, request: Fields) {
    forall i :: 0 <= i < |c.ifs| && c.ifs[i].0 in request ==> SwitchAccepts(c.ifs[i].1, request[c.ifs[i].0])
  }

  predicate NullIn(request: Fields, f: string) {
    Member(request, f).JNull?
  }

  /** A request satisfies a null-only entry: when it applies, each named field is null or absent. */
  predicate Satisfies(c: Cond, request: Fields) {
    Applies(c, request) ==> forall i :: 0 <= i < |c.thens| ==> NullIn(request, c.thens[i].0)
  }

  // --------------------------------------------------------------- compiling

  function Nulls(thens: Sorted<Prop>): nat {
    if thens == [] then 0 else (if TypeOf(thens[0].1) == "null" then 1 else 0) + Nulls(thens[1..])
  }

  function NullsOnly(c: Cond): Result<bool, Failure> {
    var nulls := Nulls(c.thens);
    if 0 < nulls < |c.thens| then Failed(Mixed) else Ok(nulls > 0)
  }

  /** nullsOnly, with its counting loop. */
  method ComputeNullsOnly(c: Cond) returns (r: Result<bool, Failure>)
    ensures r == NullsOnly(c)
  {
    var nulls, i := 0, 0;
    while i < |c.thens|
      invariant 0 <= i <= |c.thens|
      invariant nulls + Nulls(c.thens[i..]) == Nulls(c.thens)
    {
      assert c.thens[i..][1..] == c.thens[i + 1..];
      if TypeOf(c.thens[i].1) == "null" {
        nulls := nulls + 1;
      }
      i := i + 1;
    }
    if 0 < nulls < |c.thens| {
      return Failed(Mixed);
    }
    r := Ok(nulls > 0);
  }

  function Keys<T>(xs: Sorted<T>): seq<string> {
    seq(|xs|, i requires 0 <= i < |xs| => xs[i].0)
  }

  /** The values that a rule switches on. A decoded `const` of null is no constant to Go. */
  function Values(sw: Switch): Result<seq<string>, Failure> {
    match sw.const_
    case Some(JStr(v)) => Ok([v])
    case Some(JNull) => Ok(if sw.enum.Some? then sw.enum.value else [])
    case Some(_) => Failed(NonStringConst)
    case None => Ok(if sw.enum.Some? then sw.enum.value else [])
  }

  function FirstOutside(names: seq<string>, writable: set<string>): Option<string> {
    if names == [] then None
    else if names[0] !in writable then Some(names[0])
    else FirstOutside(names[1..], writable)
  }

  /** The table so far: the discriminator, empty before the first entry, and the rules. */
  datatype Table = Table(field: string, rules: seq<ScopeRule>)

  function CompileOne(c: Cond, writable: set<string>, t: Table): Result<Table, Failure> {
    match NullsOnly(c)
    case Failed(e) => Failed(e)
    case Ok(false) => Ok(t)
    case Ok(true) =>
      if |c.ifs| != 1 then Failed(Switches(|c.ifs|))
      else if t.field != "" && t.field != c.ifs[0].0 then Failed(TwoDiscriminators)
      else
        match Values(c.ifs[0].1)
        case Failed(e) => Failed(e)
        case Ok(values) =>
          match FirstOutside(Keys(c.thens), writable)
          case Some(name) => Failed(NotWritable(name))
          case None => Ok(Table(c.ifs[0].0, t.rules + [ScopeRule(values, Keys(c.thens))]))
  }

  function Compile(conds: seq<Cond>, writable: set<string>): Result<Table, Failure>
    decreases |conds|
  {
    if conds == [] then Ok(Table("", []))
    else
      match Compile(conds[..|conds| - 1], writable)
      case Failed(e) => Failed(e)
      case Ok(t) => CompileOne(conds[|conds| - 1], writable, t)
  }

  function Strings(enum: seq<Json>): Result<seq<string>, Failure> {
    if enum == [] then Ok([])
    else if !enum[0].JStr? then Failed(NonStringEnum)
    else
      match Strings(enum[1..])
      case Failed(e) => Failed(e)
      case Ok(rest) => Ok([enum[0].text] + rest)
  }

  function Lookup(props: Sorted<Prop>, name: string): seq<Json> {
    if props == [] then [] else if props[0].0 == name then props[0].1.enum else Lookup(props[1..], name)
  }

  // ------------------------------------------------------- what is documented

  predicate ExcludedValue(rules: seq<ScopeRule>, f: string, v: string) {
    exists i :: 0 <= i < |rules| && f in rules[i].fields && v in rules[i].values
  }

  predicate ScopedField(rules: seq<ScopeRule>, f: string) {
    exists i :: 0 <= i < |rules| && f in rules[i].fields && rules[i].values != []
  }

  /** The known values that take the field, in the order of the enum. */
  function Takes(known: seq<string>, rules: seq<ScopeRule>, f: string): seq<string>
    decreases |known|
  {
    if known == [] then []
    else
      var v := known[|known| - 1];
      Takes(known[..|known| - 1], rules, f) + (if ExcludedValue(rules, f, v) then [] else [v])
  }

  function Quoted(vs: seq<string>): seq<string> {
    seq(|vs|, i requires 0 <= i < |vs| => "`" + vs[i] + "`")
  }

  function JoinComma(xs: seq<string>): string {
    if xs == [] then "" else if |xs| == 1 then xs[0] else xs[0] + ", " + JoinComma(xs[1..])
  }

  function JoinAnd(xs: seq<string>): string
    requires xs != []
  {
    if |xs| == 1 then xs[0] else JoinComma(xs[..|xs| - 1]) + " and " + xs[|xs| - 1]
  }

  function Sentence(field: string, takes: seq<string>): string
    requires takes != []
  {
    " Applies only to " + field + " " + JoinAnd(Quoted(takes)) + "."
  }

  /** A field after its documentation pass; None when no value takes it. */
  function Documented(field: string, known: seq<string>, rules: seq<ScopeRule>, f: Field): Option<Field> {
    if !ScopedField(rules, f.name) then Some(f)
    else
      var takes := Takes(known, rules, f.name);
      if takes == [] then None else Some(f.(desc := f.desc + Sentence(field, takes)))
  }

  method ExcludedValues(rules: seq<ScopeRule>, f: string) returns (excluded: set<string>)
    ensures forall v :: v in excluded <==> ExcludedValue(rules, f, v)
    ensures excluded == {} <==> !ScopedField(rules, f)
  {
    excluded := {};
    for i := 0 to |rules|
      invariant forall v :: v in excluded <==> exists k :: 0 <= k < i && f in rules[k].fields && v in rules[k].values
      invariant excluded == {} <==> !exists k :: 0 <= k < i && f in rules[k].fields && rules[k].values != []
    {
      if f in rules[i].fields {
        excluded := excluded + set v | v in rules[i].values;
        assert rules[i].values != [] ==> rules[i].values[0] in excluded;
      }
    }
  }

  method ComputeTakes(known: seq<string>, rules: seq<ScopeRule>, f: string, excluded: set<string>)
    returns (takes: seq<string>)
    requires forall v :: v in excluded <==> ExcludedValue(rules, f, v)
    ensures takes == Takes(known, rules, f)
  {
    takes := [];
    for i := 0 to |known|
      invariant takes == Takes(known[..i], rules, f)
    {
      assert known[..i + 1][..i] == known[..i];
      if known[i] !in excluded {
        takes := takes + [known[i]];
      }
    }
    assert known[..|known|] == known;
  }

  /** What applyScope makes of the entries; None when no entry nulls a field. */
  function ScopeOf(conds: seq<Cond>, writable: set<string>, props: Sorted<Prop>): Result<Option<Scope>, Failure> {
    match Compile(conds, writable)
    case Failed(e) => Failed(e)
    case Ok(t) =>
      if t.field == "" then Ok(None)
      else
        var all := Lookup(props, t.field);
        if all == [] then Failed(NoEnum)
        else
          match Strings(all)
          case Failed(e) => Failed(e)
          case Ok(known) => Ok(Some(Scope(t.field, known, t.rules)))
  }

  function WritableNames(fields: seq<Field>): set<string> {
    set i | 0 <= i < |fields| && Writable(fields[i].attr.kind) :: fields[i].name
  }

  method CompileConds(conds: seq<Cond>, writable: set<string>) returns (r: Result<Table, Failure>)
    ensures r == Compile(conds, writable)
  {
    var t := Table("", []);
    var i := 0;
    while i < |conds|
      invariant 0 <= i <= |conds|
      invariant Compile(conds[..i], writable) == Ok(t)
    {
      assert conds[..i + 1][..i] == conds[..i];
      var c := conds[i];
      i := i + 1;
      var only := ComputeNullsOnly(c);
      if only.Failed? {
        CompileFailsAt(conds, writable, i);
        return Failed(only.error);
      }
      if only.value {
        var next := CompileOne(c, writable, t);
        if next.Failed? {
          CompileFailsAt(conds, writable, i);
          return next;
        }
        t := next.value;
      }
    }
    assert conds[..|conds|] == conds;
    r := Ok(t);
  }

  lemma {:induction false} CompileFailsAt(conds: seq<Cond>, writable: set<string>, n: nat)
    requires n <= |conds| && Compile(conds[..n], writable).Failed?
    ensures Compile(conds, writable) == Compile(conds[..n], writable)
    decreases |conds| - n
  {
    if n == |conds| {
      assert conds[..n] == conds;
    } else {
      assert conds[..n + 1][..n] == conds[..n];
      CompileFailsAt(conds, writable, n + 1);
    }
  }

  method DocumentOne(field: string, known: seq<string>, rules: seq<ScopeRule>, f: Field)
    returns (documented: Option<Field>)
    ensures documented == Documented(field, known, rules, f)
  {
    var excluded := ExcludedValues(rules, f.name);
    if excluded == {} {
      return Some(f);
    }
    var takes := ComputeTakes(known, rules, f.name, excluded);
    documented := if takes == [] then None else Some(f.(desc := f.desc + Sentence(field, takes)));
  }

  /** The documentation loop of applyScope; it stops at a field that no value takes. */
  method Document(fields: array<Field>, field: string, known: seq<string>, rules: seq<ScopeRule>)
    returns (untaken: Option<string>)
    modifies fields
    ensures untaken.None?
        <==> forall i :: 0 <= i < fields.Length ==> Documented(field, known, rules, old(fields[i])).Some?
    ensures untaken.None? ==>
      forall i :: 0 <= i < fields.Length ==> Documented(field, known, rules, old(fields[i])) == Some(fields[i])
  {
    for i := 0 to fields.Length
      invariant forall k :: 0 <= k < i ==> Documented(field, known, rules, old(fields[k])) == Some(fields[k])
      invariant forall k :: i <= k < fields.Length ==> fields[k] == old(fields[k])
    {
      var documented := DocumentOne(field, known, rules, fields[i]);
      if documented.None? {
        return Some(fields[i].name);
      }
      fields[i] := documented.value;
    }
    untaken := None;
  }

  predicate AllTaken(s: Scope, fields: seq<Field>) {
    forall i :: 0 <= i < |fields| ==> Documented(s.field, s.known, s.rules, fields[i]).Some?
  }

  /** applyScope: the table, with the documentation of the scoped fields changed in place. */
  method ApplyScope(fields: array<Field>, conds: seq<Cond>, props: Sorted<Prop>)
    returns (r: Result<Option<Scope>, Failure>)
    modifies fields
    ensures var scope := ScopeOf(conds, WritableNames(old(fields[..])), props);
            if scope.Failed? then r == scope
            else if scope.value.None? then r == scope && fields[..] == old(fields[..])
            else if !AllTaken(scope.value.value, old(fields[..])) then r.Failed?
            else
              && r == scope
              && forall i :: 0 <= i < fields.Length ==>
                   Documented(r.value.value.field, r.value.value.known, r.value.value.rules, old(fields[i]))
                     == Some(fields[i])
  {
    var writable := WritableNames(fields[..]);
    var table := CompileConds(conds, writable);
    if table.Failed? {
      return Failed(table.error);
    }
    var t := table.value;
    if t.field == "" {
      return Ok(None);
    }
    var all := Lookup(props, t.field);
    if all == [] {
      return Failed(NoEnum);
    }
    var strings := Strings(all);
    if strings.Failed? {
      return Failed(strings.error);
    }
    ghost var before := fields[..];
    ghost var scope := Scope(t.field, strings.value, t.rules);
    assert ScopeOf(conds, writable, props) == Ok(Some(scope));
    var untaken := Document(fields, t.field, strings.value, t.rules);
    if untaken.Some? {
      return Failed(NobodyTakes(untaken.value));
    }
    r := Ok(Some(Scope(t.field, strings.value, t.rules)));
  }

  // --------------------------------------------------- the compiled table means the entries

  predicate NullEntry(c: Cond) {
    NullsOnly(c) == Ok(true)
  }

  /** The generator reads the switch as JSON Schema does. */
  predicate FaithfulSwitch(sw: Switch) {
    match sw.const_
    case Some(JNull) => sw.enum.None? || sw.enum.value == []
    case Some(j) => sw.enum.None? || (j.JStr? && j.text in sw.enum.value)
    case None => sw.enum.Some?
  }

  /** One switch: the compiled values are the accepted ones exactly when it is faithful. */
  lemma SwitchMeaning(sw: Switch)
    requires Values(sw).Ok?
    ensures (forall v: string :: v in Values(sw).value <==> SwitchAccepts(sw, JStr(v))) <==> FaithfulSwitch(sw)
  {
    if !FaithfulSwitch(sw) {
      if sw.const_.None? {
        assert "" !in Values(sw).value && SwitchAccepts(sw, JStr(""));
      } else {
        var v := if sw.const_.value.JStr? then sw.const_.value.text else sw.enum.value[0];
        assert v in Values(sw).value && !SwitchAccepts(sw, JStr(v));
      }
    }
  }

  predicate AllFaithful(conds: seq<Cond>) {
    forall i :: 0 <= i < |conds| && NullEntry(conds[i]) && |conds[i].ifs| == 1 ==> FaithfulSwitch(conds[i].ifs[0].1)
  }

  predicate SatisfiesAll(conds: seq<Cond>, request: Fields) {
    forall i :: 0 <= i < |conds| && NullEntry(conds[i]) ==> Satisfies(conds[i], request)
  }

  predicate HoldsNone(request: Fields, fields: seq<string>) {
    forall f :: f in fields ==> NullIn(request, f)
  }

  lemma OneEntry(c: Cond, writable: set<string>, t: Table, request: Fields, v: string)
    requires NullEntry(c) && CompileOne(c, writable, t).Ok? && FaithfulSwitch(c.ifs[0].1)
    requires Member(request, c.ifs[0].0) == JStr(v)
    ensures var rule := CompileOne(c, writable, t).value.rules[|t.rules|];
            Satisfies(c, request) <==> (v in rule.values ==> HoldsNone(request, rule.fields))
  {
    SwitchMeaning(c.ifs[0].1);
    var rule := CompileOne(c, writable, t).value.rules[|t.rules|];
    assert rule == ScopeRule(Values(c.ifs[0].1).value, Keys(c.thens));
    assert Applies(c, request) <==> v in rule.values;
    if HoldsNone(request, rule.fields) {
      forall i | 0 <= i < |c.thens|
        ensures NullIn(request, c.thens[i].0)
      {
        assert rule.fields[i] == c.thens[i].0;
      }
    }
    if forall i :: 0 <= i < |c.thens| ==> NullIn(request, c.thens[i].0) {
      forall f | f in rule.fields
        ensures NullIn(request, f)
      {
        var i :| 0 <= i < |rule.fields| && rule.fields[i] == f;
        assert c.thens[i].0 == f;
      }
    }
  }

  /** Property names are not empty: an empty one would read as no discriminator at all. */
  predicate Named(conds: seq<Cond>) {
    forall i, j :: 0 <= i < |conds| && 0 <= j < |conds[i].ifs| ==> conds[i].ifs[j].0 != ""
  }

  lemma AddedRule(conds: seq<Cond>, writable: set<string>, request: Fields, v: string)
    requires conds != [] && Compile(conds, writable).Ok? && AllFaithful(conds) && Named(conds)
    requires NullEntry(conds[|conds| - 1]) && Member(request, Compile(conds, writable).value.field) == JStr(v)
    ensures var t0, t := Compile(conds[..|conds| - 1], writable).value, Compile(conds, writable).value;
            && (t0.field == "" || t0.field == t.field)
            && (HoldsNone(request, ExcludedBy(t.rules, v)) <==>
                HoldsNone(request, ExcludedBy(t0.rules, v)) && Satisfies(conds[|conds| - 1], request))
  {
    var t0, t := Compile(conds[..|conds| - 1], writable).value, Compile(conds, writable).value;
    OneEntry(conds[|conds| - 1], writable, t0, request, v);
    assert t.rules[..|t.rules| - 1] == t0.rules;
    var rule := t.rules[|t.rules| - 1];
    assert ExcludedBy(t.rules, v) == ExcludedBy(t0.rules, v) + (if v in rule.values then rule.fields else []);
  }

  lemma FrontEntries(conds: seq<Cond>, request: Fields)
    requires conds != []
    ensures var front, c := conds[..|conds| - 1], conds[|conds| - 1];
            && (AllFaithful(conds) ==> AllFaithful(front))
            && (Named(conds) ==> Named(front))
            && (SatisfiesAll(conds, request)
                <==> SatisfiesAll(front, request) && (NullEntry(c) ==> Satisfies(c, request)))
  {
    var front := conds[..|conds| - 1];
    assert forall i :: 0 <= i < |front| ==> front[i] == conds[i];
  }

  /**
   Compiling keeps the meaning: a request whose discriminator is the text v satisfies every null-only
   entry exactly when it holds nothing for the fields that the table excludes for v.
   */
  lemma {:induction false} CompiledMeaning(conds: seq<Cond>, writable: set<string>, request: Fields, v: string)
    requires Compile(conds, writable).Ok? && AllFaithful(conds) && Named(conds)
    requires var t := Compile(conds, writable).value; t.field != "" ==> Member(request, t.field) == JStr(v)
    ensures var t := Compile(conds, writable).value;
            SatisfiesAll(conds, request) <==> HoldsNone(request, ExcludedBy(t.rules, v))
    decreases |conds|
  {
    if conds != [] {
      var front, c := conds[..|conds| - 1], conds[|conds| - 1];
      FrontEntries(conds, request);
      if NullEntry(c) {
        AddedRule(conds, writable, request, v);
      }
      CompiledMeaning(front, writable, request, v);
    }
  }

  lemma {:induction false} RulesAreWritable(conds: seq<Cond>, writable: set<string>)
    requires Compile(conds, writable).Ok?
    ensures var t := Compile(conds, writable).value;
            forall i :: 0 <= i < |t.rules| ==> forall f :: f in t.rules[i].fields ==> f in writable
    decreases |conds|
  {
    if conds != [] {
      RulesAreWritable(conds[..|conds| - 1], writable);
      var c := conds[|conds| - 1];
      if NullEntry(c) {
        AllInside(Keys(c.thens), writable);
      }
    }
  }

  lemma {:induction false} AllInside(names: seq<string>, writable: set<string>)
    requires FirstOutside(names, writable).None?
    ensures forall f :: f in names ==> f in writable
  {
    if names != [] {
      AllInside(names[1..], writable);
    }
  }

  /** The table only names writable attributes. */
  lemma {:induction false} ScopedAreWritable(rules: seq<ScopeRule>, writable: set<string>, f: string)
    requires forall i :: 0 <= i < |rules| ==> forall g :: g in rules[i].fields ==> g in writable
    requires f in ScopedBy(rules)
    ensures f in writable
    decreases |rules|
  {
    if f !in rules[|rules| - 1].fields {
      ScopedAreWritable(rules[..|rules| - 1], writable, f);
    }
  }

  /** The documented values of a field are exactly the known values whose excluded fields omit it. */
  lemma {:induction false} DocumentedValues(known: seq<string>, rules: seq<ScopeRule>, f: string, v: string)
    ensures v in Takes(known, rules, f) <==> v in known && f !in ExcludedBy(rules, v)
    decreases |known|
  {
    ExcludedMembers(rules, v, f);
    assert ExcludedValue(rules, f, v) <==> f in ExcludedBy(rules, v);
    if known != [] {
      DocumentedValues(known[..|known| - 1], rules, f, v);
    }
  }
}
