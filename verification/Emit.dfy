/**
 The statements that the generator emits for `body` and `read` (internal/gen/renderers.go), as a small
 language with its meaning, and what the emitted programs compute.
 */
module Emit {
  import opened Wrappers
  import opened Codec
  import opened FieldScope
  import opened Json
  import opened Schema
  import opened Builder
  import opened Router

  /** A put into the request map, behind the create flag or not. */
  datatype PutStmt = PutStmt(coding: Coding, key: string, onCreate: bool)

  datatype Getter = GetStr | GetBool | GetInt64 | GetListKeepEmpty | GetBoolDefault

  datatype ReadStmt = Assign(getter: Getter, key: string) | Comment(key: string)

  function BodyStmt(f: Field): Option<PutStmt> {
    if !Writable(f.attr.kind) then None
    else Some(PutStmt(
      if f.attr.kind == IntStr then AsIntOrStr
      else match f.attr.ty
           case ListType => AsList
           case Int64Type => AsInt64
           case BoolType => AsBool
           case StringType => AsStr,
      f.name, f.attr.kind == CreateOnly))
  }

  function ReadStmtOf(f: Field): ReadStmt {
    match f.attr.kind
    case WriteOnly => Comment(f.name)
    case CreateOnly => Comment(f.name)
    case ComputedBool => Assign(GetBoolDefault, f.name)
    case _ =>
      Assign(match f.attr.ty
             case ListType => GetListKeepEmpty
             case Int64Type => GetInt64
             case BoolType => GetBool
             case StringType => GetStr, f.name)
  }

  /** The emitted body: one put per field that has one, in order. */
  function BodyProgram(fields: seq<Field>): seq<PutStmt>
    decreases |fields|
  {
    if fields == [] then []
    else
      BodyProgram(fields[..|fields| - 1])
      + match BodyStmt(fields[|fields| - 1])
        case Some(s) => [s]
        case None => []
  }

  function ReadProgram(fields: seq<Field>): seq<ReadStmt> {
    seq(|fields|, i requires 0 <= i < |fields| => ReadStmtOf(fields[i]))
  }

  // ------------------------------------------------------- running the statements

  function ExecPut(s: PutStmt, m: Model, create: bool, out: Fields): Fields {
    if s.onCreate && !create then out else After(s.coding, out, s.key, Get(m, s.key))
  }

  function ExecPuts(stmts: seq<PutStmt>, m: Model, create: bool, out: Fields): Fields
    decreases |stmts|
  {
    if stmts == [] then out
    else ExecPut(stmts[|stmts| - 1], m, create, ExecPuts(stmts[..|stmts| - 1], m, create, out))
  }

  predicate TypedFor(stmts: seq<PutStmt>, m: Model) {
    forall i :: 0 <= i < |stmts| ==> Typed(stmts[i].coding, Get(m, stmts[i].key))
  }

  /** The emitted body method, run statement by statement on the request map. */
  method RunBody(stmts: seq<PutStmt>, m: Model, create: bool) returns (out: Object)
    requires TypedFor(stmts, m)
    ensures fresh(out) && out.m == ExecPuts(stmts, m, create, map[])
  {
    out := new Object(map[]);
    for i := 0 to |stmts|
      invariant fresh(out) && out.m == ExecPuts(stmts[..i], m, create, map[])
    {
      assert stmts[..i + 1][..i] == stmts[..i];
      var s := stmts[i];
      if !s.onCreate || create {
        var v := Get(m, s.key);
        match s.coding {
          case AsStr => PutStr(out, s.key, v);
          case AsIntOrStr => PutIntOrStr(out, s.key, v);
          case AsBool => PutBool(out, s.key, v);
          case AsInt64 => PutInt64(out, s.key, v);
          case AsList => PutList(out, s.key, v);
        }
      }
    }
    assert stmts[..|stmts|] == stmts;
  }

  function Got(g: Getter, obj: Fields, key: string, prior: Value): Value {
    match g
    case GetStr => StrVal(obj, key)
    case GetBool => BoolVal(obj, key)
    case GetInt64 => Int64Val(obj, key)
    case GetListKeepEmpty => ListValKeepEmpty(obj, key, prior)
    case GetBoolDefault => BoolValDefault(obj, key)
  }

  function ExecRead(s: ReadStmt, obj: Fields, m: Model): Model {
    match s
    case Comment(_) => m
    case Assign(g, key) => m[key := Got(g, obj, key, Get(m, key))]
  }

  function ExecReads(stmts: seq<ReadStmt>, obj: Fields, m: Model): Model
    decreases |stmts|
  {
    if stmts == [] then m
    else ExecRead(stmts[|stmts| - 1], obj, ExecReads(stmts[..|stmts| - 1], obj, m))
  }

  /** The model that `read` overwrites field by field. */
  class ModelVar {
    var m: Model

    constructor (m: Model)
      ensures this.m == m
    {
      this.m := m;
    }
  }

  method RunRead(stmts: seq<ReadStmt>, obj: Fields, model: ModelVar)
    modifies model
    ensures model.m == ExecReads(stmts, obj, old(model.m))
  {
    for i := 0 to |stmts|
      invariant model.m == ExecReads(stmts[..i], obj, old(model.m))
    {
      assert stmts[..i + 1][..i] == stmts[..i];
      match stmts[i] {
        case Comment(_) =>
        case Assign(g, key) => model.m := model.m[key := Got(g, obj, key, Get(model.m, key))];
      }
    }
    assert stmts[..|stmts|] == stmts;
  }

  // ------------------------------------------------------ what the programs compute

  function AttrsOf(fields: seq<Field>): Attributes
    decreases |fields|
  {
    if fields == [] then map[]
    else AttrsOf(fields[..|fields| - 1])[fields[|fields| - 1].name := fields[|fields| - 1].attr]
  }

  lemma {:induction false} AttrsOfMembers(fields: seq<Field>, i: nat)
    requires DistinctNames(fields) && i < |fields|
    ensures fields[i].name in AttrsOf(fields) && AttrsOf(fields)[fields[i].name] == fields[i].attr
    decreases |fields|
  {
    if i < |fields| - 1 {
      assert fields[..|fields| - 1][i] == fields[i];
      AttrsOfMembers(fields[..|fields| - 1], i);
    }
  }

  lemma {:induction false} AttrsOfNames(fields: seq<Field>, k: string)
    ensures k in AttrsOf(fields) <==> exists i :: 0 <= i < |fields| && fields[i].name == k
    decreases |fields|
  {
    if fields != [] {
      var front := fields[..|fields| - 1];
      AttrsOfNames(front, k);
      assert forall i :: 0 <= i < |front| ==> front[i] == fields[i];
      if k == fields[|fields| - 1].name {
        assert fields[|fields| - 1].name == k;
      }
    }
  }

  lemma BodyGrows(attrs: Attributes, f: Field, m: Model, create: bool)
    requires f.name !in attrs
    ensures Body(attrs[f.name := f.attr], m, create)
         == match BodyStmt(f)
            case None => Body(attrs, m, create)
            case Some(s) => ExecPut(s, m, create, Body(attrs, m, create))
  {
    var body, grown := Body(attrs, m, create), Body(attrs[f.name := f.attr], m, create);
    var (kind, v) := (f.attr.kind, Get(m, f.name));
    if (Sent(kind) || (create && kind == CreateOnly)) && Known(v) {
      assert grown == body[f.name := Encode(CodingOf(f.attr), v)];
    } else {
      assert grown == body;
    }
  }

  /** The emitted puts build exactly the body of the schema, for create and for update. */
  lemma {:induction false} BodyProgramIsBody(fields: seq<Field>, m: Model, create: bool)
    requires DistinctNames(fields)
    ensures ExecPuts(BodyProgram(fields), m, create, map[]) == Body(AttrsOf(fields), m, create)
    decreases |fields|
  {
    if fields != [] {
      var front, f := fields[..|fields| - 1], fields[|fields| - 1];
      BodyProgramIsBody(front, m, create);
      AttrsOfNames(front, f.name);
      BodyGrows(AttrsOf(front), f, m, create);
      var stmts := BodyProgram(fields);
      match BodyStmt(f) {
        case None => assert stmts == BodyProgram(front);
        case Some(s) => assert stmts[..|stmts| - 1] == BodyProgram(front) && stmts[|stmts| - 1] == s;
      }
    }
  }

  lemma ReadStmtIsReadOne(f: Field, obj: Fields, m: Model)
    requires f.attr.kind == IntStr || f.attr.kind == ComputedString || f.attr.kind == CreateOnly ==>
        f.attr.ty == StringType
    ensures Get(ExecRead(ReadStmtOf(f), obj, m), f.name) == ReadOne(f.attr, obj, f.name, Get(m, f.name))
    ensures forall k :: k != f.name ==> Get(ExecRead(ReadStmtOf(f), obj, m), k) == Get(m, k)
  {
  }

  /** The fields that buildResource gives these kinds are strings. */
  predicate StringKinds(fields: seq<Field>) {
    forall i :: 0 <= i < |fields| && fields[i].attr.kind in {IntStr, ComputedString, CreateOnly} ==>
        fields[i].attr.ty == StringType
  }

  lemma {:induction false} ReadProgramAt(fields: seq<Field>, obj: Fields, m: Model, k: string)
    requires DistinctNames(fields) && StringKinds(fields)
    ensures Get(ExecReads(ReadProgram(fields), obj, m), k)
         == if k in AttrsOf(fields) then ReadOne(AttrsOf(fields)[k], obj, k, Get(m, k)) else Get(m, k)
    decreases |fields|
  {
    if fields != [] {
      var front, f := fields[..|fields| - 1], fields[|fields| - 1];
      ReadProgramAt(front, obj, m, k);
      AttrsOfNames(front, f.name);
      var stmts := ReadProgram(fields);
      assert stmts[..|stmts| - 1] == ReadProgram(front) && stmts[|stmts| - 1] == ReadStmtOf(f);
      ReadStmtIsReadOne(f, obj, ExecReads(ReadProgram(front), obj, m));
    }
  }

  /** The emitted reads overwrite exactly what the schema says a read overwrites. */
  lemma ReadProgramIsReadBack(fields: seq<Field>, obj: Fields, m: Model, k: string)
    requires DistinctNames(fields) && StringKinds(fields) && k in AttrsOf(fields)
    ensures Get(ExecReads(ReadProgram(fields), obj, m), k) == ReadBack(AttrsOf(fields), obj, m)[k]
  {
    ReadProgramAt(fields, obj, m, k);
  }

  /** What buildResource builds can be emitted, and the emitted update stays inside the request schema. */
  lemma EmittedUpdateIsWritable(d: Descriptor, props: Spec.Sorted<Spec.Prop>, writable: set<string>,
                                required: seq<string>, m: Model, k: string)
    requires Spec.DistinctKeys(props) && Build(d, props, writable, required).Some?
    ensures var fields := Build(d, props, writable, required).value;
            && DistinctNames(fields) && StringKinds(fields)
            && (k in ExecPuts(BodyProgram(fields), m, false, map[]) ==> k in writable)
  {
    var fields := Build(d, props, writable, required).value;
    BuiltNamesAreDistinct(d, props, writable, required);
    forall i | 0 <= i < |fields|
      ensures fields[i].attr.kind in {IntStr, ComputedString, CreateOnly} ==> fields[i].attr.ty == StringType
    {
      BuiltFields(d, props, writable, required, fields[i]);
    }
    BodyProgramIsBody(fields, m, false);
    if k in Body(AttrsOf(fields), m, false) {
      AttrsOfNames(fields, k);
      var i :| 0 <= i < |fields| && fields[i].name == k;
      AttrsOfMembers(fields, i);
      SentIsWritable(d, props, writable, required, fields[i]);
    }
  }

  /** A server that keeps what it can, drops empty lists and empty strings, and may fill in defaults. */
  function Echoed(attrs: Attributes, defaults: string -> Json, body: Fields): Fields {
    View(Contract(_ => {}, (_, k) => defaults(k), (_, _) => JNull), attrs, "", Stored(body))
  }

  predicate SoundDefaults(attrs: Attributes, defaults: string -> Json) {
    forall k :: k in attrs && Sent(attrs[k].kind) && !defaults(k).JNull? ==>
      attrs[k].ty != ListType && Readable(attrs[k], defaults(k))
  }

  lemma EchoedOne(attrs: Attributes, defaults: string -> Json, plan: Model, create: bool, k: string)
    requires SoundDefaults(attrs, defaults) && k in attrs && Sent(attrs[k].kind) && Schema.Read(attrs[k].kind)
    requires Known(Get(plan, k)) && Typed(CodingOf(attrs[k]), Get(plan, k))
    ensures ReadBack(attrs, Echoed(attrs, defaults, Body(attrs, plan, create)), plan)[k] == plan[k]
        <==> Faithful(CodingOf(attrs[k]), plan[k]) && plan[k] != Str("")
  {
    var a, v := attrs[k], plan[k];
    var body := Body(attrs, plan, create);
    var obj := Echoed(attrs, defaults, body);
    assert body[k] == Encode(CodingOf(a), v);
    if v == Texts([]) {
      assert JStrings([]) == [];
      assert k !in obj;
      ReadsNothing(a, obj, k, v);
    } else if v == Str("") {
      if k in obj {
        ReadsValue(a, obj, k, v);
      }
    } else {
      assert v.Texts? ==> |JStrings(v.items)| == |v.items|;
      assert Storable(body[k]) && obj[k] == body[k];
      EchoReadsBack(CodingOf(a), k, v, obj);
    }
  }

  /**
   The emitted body, the server and the emitted read, run one after the other: a planned known value
   comes back exactly when JSON and float64 carry it and it is not the empty string, an empty list
   included, and a write-only value never changes.
   */
  lemma EmittedRoundTrip(fields: seq<Field>, defaults: string -> Json, plan: Model, create: bool, k: string)
    requires DistinctNames(fields) && StringKinds(fields) && k in AttrsOf(fields)
    requires SoundDefaults(AttrsOf(fields), defaults) && Typed(CodingOf(AttrsOf(fields)[k]), Get(plan, k))
    ensures var attrs := AttrsOf(fields);
            var body := ExecPuts(BodyProgram(fields), plan, create, map[]);
            var after := ExecReads(ReadProgram(fields), Echoed(attrs, defaults, body), plan);
            && (!Schema.Read(attrs[k].kind) ==> Get(after, k) == Get(plan, k))
            && (Schema.Read(attrs[k].kind) && Sent(attrs[k].kind) && Known(Get(plan, k)) ==>
                (Get(after, k) == Get(plan, k) <==>
                  Faithful(CodingOf(attrs[k]), Get(plan, k)) && Get(plan, k) != Str("")))
  {
    var attrs := AttrsOf(fields);
    BodyProgramIsBody(fields, plan, create);
    var obj := Echoed(attrs, defaults, Body(attrs, plan, create));
    ReadProgramIsReadBack(fields, obj, plan, k);
    if Schema.Read(attrs[k].kind) && Sent(attrs[k].kind) && Known(Get(plan, k)) {
      EchoedOne(attrs, defaults, plan, create, k);
    }
  }
}
