/**
 `buildResource` (internal/gen/main.go) and the refusals of `resAttr` (internal/gen/renderers.go): how
 each property of the response schema becomes an attribute, or stops the generator.
 */
module Builder {
  import opened Wrappers
  import opened Schema
  import opened Spec

  /** What the hand-written overlay says about a resource. */
  datatype Descriptor = Descriptor(createOnly: set<string>, intStr: set<string>, singleton: bool,
                                   describe: string -> string)

  datatype Field = Field(name: string, attr: Attribute, desc: string)

  datatype Class = Skip | Emit(field: Field) | Stop

  const UNMODELLED: set<string> := {"id", "managed", "runtime"}

  /** The description of a field: the overlay's, or the specification's own for a create-only input. */
  function Describe(d: Descriptor, name: string, p: Prop): string {
    if name in d.createOnly && p.description != "" then p.description else d.describe(name)
  }

  /** The attribute of a property that is neither create-only nor an integer-or-string union. */
  function PlainAttribute(d: Descriptor, p: Prop, readOnly: bool, required: bool): Option<Attribute> {
    if readOnly then
      if p.deprecated then None
      else if TypeOf(p) == "boolean" then Some(Attribute(BoolType, ComputedBool))
      else if TypeOf(p) == "string" then Some(Attribute(StringType, ComputedString))
      else None
    else
      var kind := if p.writeOnly then WriteOnly
                  else if required then Required
                  else if p.clearOnOmit then OptClear
                  else OptComp;
      if p.deprecated || (kind == OptClear && d.singleton) then None else Some(Attribute(GoType(p), kind))
  }

  /** The attribute of a property; None when the generator stops at it. */
  function AttributeFor(d: Descriptor, name: string, p: Prop, writable: bool, required: bool): Option<Attribute> {
    var readOnly := p.readOnly || !writable;
    if name in d.createOnly then Some(Attribute(StringType, CreateOnly))
    else if IntStrUnion(p) then
      if name !in d.intStr || readOnly || p.writeOnly || required || p.deprecated then None
      else Some(Attribute(StringType, IntStr))
    else PlainAttribute(d, p, readOnly, required)
  }

  /** resAttr has no schema attribute for these. */
  predicate Unrenderable(a: Attribute) {
    (a.kind == OptClear || a.kind == WriteOnly) && a.ty != StringType && a.ty != ListType
  }

  predicate MustBeSet(required: seq<string>, name: string) {
    name != "match" && name in required
  }

  /** One pass through the loop over the sorted property names. */
  function FieldOf(d: Descriptor, name: string, p: Prop, writable: set<string>, required: seq<string>): Class {
    if name in UNMODELLED || TypeOf(p) == "object" then Skip
    else
      match AttributeFor(d, name, p, name in writable, MustBeSet(required, name))
      case None => Stop
      case Some(a) => if Unrenderable(a) then Stop else Emit(Field(name, a, Describe(d, name, p)))
  }

  function Classified(d: Descriptor, props: Sorted<Prop>, writable: set<string>, required: seq<string>): seq<Class> {
    seq(|props|, i requires 0 <= i < |props| => FieldOf(d, props[i].0, props[i].1, writable, required))
  }

  function Assemble(classes: seq<Class>): Option<seq<Field>>
    decreases |classes|
  {
    if classes == [] then Some([])
    else
      match (Assemble(classes[..|classes| - 1]), classes[|classes| - 1])
      case (Some(fields), Skip) => Some(fields)
      case (Some(fields), Emit(f)) => Some(fields + [f])
      case _ => None
  }

  /** The fields of a resource, or nothing when the generator stops. */
  function Build(d: Descriptor, props: Sorted<Prop>, writable: set<string>, required: seq<string>): Option<seq<Field>> {
    Assemble(Classified(d, props, writable, required))
  }

  method BuildResource(d: Descriptor, props: Sorted<Prop>, writable: set<string>, required: seq<string>)
    returns (fields: Option<seq<Field>>)
    ensures fields == Build(d, props, writable, required)
  {
    ghost var classes := Classified(d, props, writable, required);
    var out: seq<Field> := [];
    for i := 0 to |props|
      invariant Assemble(classes[..i]) == Some(out)
    {
      assert classes[..i + 1][..i] == classes[..i];
      match FieldOf(d, props[i].0, props[i].1, writable, required) {
        case Skip =>
        case Emit(f) => out := out + [f];
        case Stop =>
          StopsForGood(classes, i + 1);
          return None;
      }
    }
    assert classes[..|props|] == classes;
    fields := Some(out);
  }

  lemma {:induction false} StopsForGood(classes: seq<Class>, n: nat)
    requires n <= |classes| && Assemble(classes[..n]).None?
    ensures Assemble(classes).None?
    decreases |classes| - n
  {
    if n == |classes| {
      assert classes[..n] == classes;
    } else {
      assert classes[..n + 1][..n] == classes[..n];
      StopsForGood(classes, n + 1);
    }
  }

  lemma {:induction false} AssembledFields(classes: seq<Class>, f: Field)
    requires Assemble(classes).Some?
    ensures f in Assemble(classes).value <==> Emit(f) in classes
    ensures forall i :: 0 <= i < |classes| ==> !classes[i].Stop?
    decreases |classes|
  {
    if classes != [] {
      var n := |classes| - 1;
      AssembledFields(classes[..n], f);
      assert classes == classes[..n] + [classes[n]];
      assert f in Assemble(classes).value <==> f in Assemble(classes[..n]).value || classes[n] == Emit(f);
    }
  }

  lemma AssembleAlone(c: Class)
    ensures Assemble([c]) == match c case Skip => Some([]) case Emit(f) => Some([f]) case Stop => None
  {
    assert [c][..0] == [];
    assert c.Emit? ==> [] + [c.field] == [c.field];
  }

  /** The fields come in the order of the properties, and one property that stops the generator is enough. */
  lemma {:induction false} AssembleAppend(a: seq<Class>, b: seq<Class>)
    ensures Assemble(a + b) ==
      if Assemble(a).Some? && Assemble(b).Some? then Some(Assemble(a).value + Assemble(b).value) else None
    decreases |b|
  {
    if b == [] {
      assert a + b == a;
      assert Assemble(a).Some? ==> Assemble(a).value + [] == Assemble(a).value;
    } else {
      var front, last := b[..|b| - 1], b[|b| - 1];
      AssembleAppend(a, front);
      assert (a + b)[..|a + b| - 1] == a + front && (a + b)[|a + b| - 1] == last;
      if Assemble(a).Some? && Assemble(front).Some? && last.Emit? {
        var x, y := Assemble(a).value, Assemble(front).value;
        assert x + y + [last.field] == x + (y + [last.field]);
      }
    }
  }

  lemma {:induction false} AssemblesIff(classes: seq<Class>)
    ensures Assemble(classes).Some? <==> forall i :: 0 <= i < |classes| ==> !classes[i].Stop?
    decreases |classes|
  {
    if classes != [] {
      AssemblesIff(classes[..|classes| - 1]);
    }
  }

  /** The i-th property becomes this field. */
  predicate Yields(d: Descriptor, props: Sorted<Prop>, writable: set<string>, required: seq<string>, i: nat, f: Field)
    requires i < |props|
  {
    FieldOf(d, props[i].0, props[i].1, writable, required) == Emit(f)
  }

  /** The fields are the classified properties, no more and no fewer. */
  lemma BuiltFields(d: Descriptor, props: Sorted<Prop>, writable: set<string>, required: seq<string>, f: Field)
    requires Build(d, props, writable, required).Some?
    ensures f in Build(d, props, writable, required).value <==>
      exists i :: 0 <= i < |props| && Yields(d, props, writable, required, i, f)
  {
    var classes := Classified(d, props, writable, required);
    AssembledFields(classes, f);
    if Emit(f) in classes {
      var i :| 0 <= i < |classes| && classes[i] == Emit(f);
      assert Yields(d, props, writable, required, i, f);
    }
    if exists i :: 0 <= i < |props| && Yields(d, props, writable, required, i, f) {
      var i :| 0 <= i < |props| && Yields(d, props, writable, required, i, f);
      assert classes[i] == Emit(f);
    }
  }

  predicate DistinctNames(fields: seq<Field>) {
    forall i, j :: 0 <= i < j < |fields| ==> fields[i].name != fields[j].name
  }

  predicate DistinctClasses(classes: seq<Class>) {
    forall i, j :: 0 <= i < j < |classes| && classes[i].Emit? && classes[j].Emit? ==>
      classes[i].field.name != classes[j].field.name
  }

  lemma {:induction false} AssembledNamesAreDistinct(classes: seq<Class>)
    requires DistinctClasses(classes) && Assemble(classes).Some?
    ensures DistinctNames(Assemble(classes).value)
    decreases |classes|
  {
    if classes != [] {
      var n := |classes| - 1;
      var fields := Assemble(classes[..n]).value;
      AssembledNamesAreDistinct(classes[..n]);
      forall i | 0 <= i < |fields| && classes[n].Emit?
        ensures fields[i].name != classes[n].field.name
      {
        AssembledFields(classes[..n], fields[i]);
        var k :| 0 <= k < n && classes[k] == Emit(fields[i]);
      }
    }
  }

  lemma BuiltNamesAreDistinct(d: Descriptor, props: Sorted<Prop>, writable: set<string>, required: seq<string>)
    requires DistinctKeys(props) && Build(d, props, writable, required).Some?
    ensures DistinctNames(Build(d, props, writable, required).value)
  {
    AssembledNamesAreDistinct(Classified(d, props, writable, required));
  }

  /** No response-only property is ever sent: what an update sends is in the request schema. */
  lemma SentIsWritable(d: Descriptor, props: Sorted<Prop>, writable: set<string>, required: seq<string>, f: Field)
    requires Build(d, props, writable, required).Some? && f in Build(d, props, writable, required).value
    ensures Sent(f.attr.kind) ==> f.name in writable
  {
    BuiltFields(d, props, writable, required, f);
  }

  /** The properties that an answer never carries back: create-only inputs and writable secrets. */
  predicate NeverReturned(d: Descriptor, name: string, p: Prop, writable: set<string>) {
    name in d.createOnly || (p.writeOnly && !p.readOnly && name in writable)
  }

  /**
   Every modelled response property has an attribute, and a read overwrites it exactly when the
   property is neither create-only nor a writable secret.
   */
  lemma EveryPropertyIsRead(d: Descriptor, props: Sorted<Prop>, writable: set<string>, required: seq<string>, i: nat)
    requires DistinctKeys(props) && Build(d, props, writable, required).Some? && i < |props|
    requires props[i].0 !in UNMODELLED && TypeOf(props[i].1) != "object"
    ensures exists f :: f in Build(d, props, writable, required).value && f.name == props[i].0
                        && (Schema.Read(f.attr.kind) <==> !NeverReturned(d, props[i].0, props[i].1, writable))
  {
    var class_ := FieldOf(d, props[i].0, props[i].1, writable, required);
    assert Classified(d, props, writable, required)[i] == class_;
    AssembledFields(Classified(d, props, writable, required), Field("", Attribute(StringType, OptComp), ""));
    var f := class_.field;
    assert Yields(d, props, writable, required, i, f);
    BuiltFields(d, props, writable, required, f);
  }

  /** A property that a caller can set: it is in the request schema and not flagged read-only. */
  predicate Settable(name: string, p: Prop, writable: set<string>) {
    name in writable && !p.readOnly
  }

  /** Neither create-only nor an integer-or-string union. */
  predicate Plain(d: Descriptor, name: string, p: Prop) {
    name !in d.createOnly && !IntStrUnion(p)
  }

  /** Left out of an update, the field is removed. */
  predicate Clears(d: Descriptor, name: string, p: Prop, writable: set<string>, required: seq<string>) {
    && Plain(d, name, p) && Settable(name, p, writable) && !p.writeOnly
    && !MustBeSet(required, name) && p.clearOnOmit
  }

  /**
   The kind and the type of a field follow from the specification and the overlay: who can set it,
   whether they must, whether the server may fill it in, and what it holds.
   */
  lemma KindsFollowTheSpec(d: Descriptor, name: string, p: Prop, writable: set<string>, required: seq<string>)
    requires FieldOf(d, name, p, writable, required).Emit?
    ensures var f := FieldOf(d, name, p, writable, required).field;
            var kind, ty, settable, plain := f.attr.kind, f.attr.ty, Settable(name, p, writable), Plain(d, name, p);
            && f.name == name
            && (kind == CreateOnly <==> name in d.createOnly)
            && (kind == IntStr <==> name !in d.createOnly && IntStrUnion(p))
            && (Writable(kind) <==> settable || name in d.createOnly)
            && (kind == WriteOnly <==> plain && settable && p.writeOnly)
            && (kind == Required <==> plain && settable && !p.writeOnly && MustBeSet(required, name))
            && (kind == OptClear <==> Clears(d, name, p, writable, required))
            && (Computed(kind) && plain <==>
                plain && (!settable || (!p.writeOnly && !MustBeSet(required, name) && !p.clearOnOmit)))
            && (kind == ComputedBool ==> ty == BoolType) && (kind == ComputedString ==> ty == StringType)
            && (!plain ==> ty == StringType)
            && (plain ==>
                  && (ty == BoolType <==> TypeOf(p) == "boolean") && (ty == Int64Type <==> TypeOf(p) == "integer")
                  && (ty == ListType <==> TypeOf(p) == "array"))
  {
  }

  /**
   The generator skips a property exactly when the model has no attribute for it, and stops at one
   exactly when it has no emission for it.
   */
  lemma StopsIff(d: Descriptor, name: string, p: Prop, writable: set<string>, required: seq<string>)
    ensures var c := FieldOf(d, name, p, writable, required);
            var settable, plain := Settable(name, p, writable), Plain(d, name, p);
            && (c.Skip? <==> name in {"id", "managed", "runtime"} || TypeOf(p) == "object")
            && (c.Stop? <==>
                 && !c.Skip? && name !in d.createOnly
                 && (|| p.deprecated
                     || (IntStrUnion(p) && (name !in d.intStr || !settable || p.writeOnly || MustBeSet(required, name)))
                     || (plain && !settable && TypeOf(p) !in {"boolean", "string"})
                     || (plain && settable && p.writeOnly && TypeOf(p) in {"boolean", "integer"})
                     || (Clears(d, name, p, writable, required)
                         && (d.singleton || TypeOf(p) in {"boolean", "integer"}))))
  {
  }

  /** The generator gets through a specification exactly when it stops at none of its properties. */
  lemma BuildsIff(d: Descriptor, props: Sorted<Prop>, writable: set<string>, required: seq<string>)
    ensures Build(d, props, writable, required).Some?
        <==> forall i :: 0 <= i < |props| ==> !FieldOf(d, props[i].0, props[i].1, writable, required).Stop?
  {
    var classes := Classified(d, props, writable, required);
    AssemblesIff(classes);
    assert forall i :: 0 <= i < |props| ==> classes[i] == FieldOf(d, props[i].0, props[i].1, writable, required);
  }
}
