/** The OpenAPI schemas that the generator reads (internal/gen/main.go), and how it types a property. */
module Spec {
  import opened Json
  import opened Schema

  /** The `type` keyword: one name, a union of names, or nothing. */
  datatype TypeWord = Single(name: string) | Union(names: seq<string>) | Missing

  datatype Prop = Prop(ty: TypeWord, writeOnly: bool, readOnly: bool, deprecated: bool, clearOnOmit: bool,
                       enum: seq<Json>, description: string)

  /** The members of a JSON object in the order that sorting its keys gives. */
  type Sorted<T> = seq<(string, T)>

  predicate DistinctKeys<T>(xs: Sorted<T>) {
    forall i, j :: 0 <= i < j < |xs| ==> xs[i].0 != xs[j].0
  }

  function FirstNonNull(names: seq<string>): string {
    if names == [] then "string" else if names[0] != "null" then names[0] else FirstNonNull(names[1..])
  }

  /** typeOf: a union that admits an array is the array, else its first type that is not null. */
  function TypeOf(p: Prop): string {
    match p.ty
    case Single(name) => name
    case Union(names) => if "array" in names then "array" else FirstNonNull(names)
    case Missing => "string"
  }

  /** The i-th name is the first of the union that is not null. */
  predicate FirstOther(names: seq<string>, i: nat) {
    i < |names| && names[i] != "null" && forall j :: 0 <= j < i ==> names[j] == "null"
  }

  lemma {:induction false} FirstNonNullIs(names: seq<string>)
    ensures forall i: nat :: FirstOther(names, i) ==> FirstNonNull(names) == names[i]
    ensures (forall i :: 0 <= i < |names| ==> names[i] == "null") ==> FirstNonNull(names) == "string"
  {
    if names != [] && names[0] == "null" {
      FirstNonNullIs(names[1..]);
      forall i: nat | FirstOther(names, i)
        ensures FirstNonNull(names) == names[i]
      {
        assert FirstOther(names[1..], i - 1);
      }
    }
  }

  /** A union with an array is one, any other its first type that is not null, and a string without any. */
  lemma TypesFollowTheUnion(p: Prop)
    requires p.ty.Union?
    ensures "array" in p.ty.names ==> TypeOf(p) == "array"
    ensures "array" !in p.ty.names ==> forall i: nat :: FirstOther(p.ty.names, i) ==> TypeOf(p) == p.ty.names[i]
    ensures (forall i :: 0 <= i < |p.ty.names| ==> p.ty.names[i] == "null") ==> TypeOf(p) == "string"
  {
    FirstNonNullIs(p.ty.names);
  }

  predicate IntStrUnion(p: Prop) {
    p.ty.Union? && "integer" in p.ty.names && "string" in p.ty.names
  }

  function GoType(p: Prop): Type {
    var t := TypeOf(p);
    if t == "integer" then Int64Type
    else if t == "boolean" then BoolType
    else if t == "array" then ListType
    else StringType
  }
}
