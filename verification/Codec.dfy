/** Attribute values and their way to the wire and back (internal/provider/helpers.go). */
module Codec {
  import opened Wrappers
  import opened Json
  import Numerals

  /** A Terraform attribute value. The attribute's type fixes which of the known forms it has. */
  datatype Value = Null | Unknown | Str(text: string) | Flag(on: bool) | Whole(n: int) | Texts(items: seq<string>)

  predicate Known(v: Value) {
    !v.Null? && !v.Unknown?
  }

  /** The put helper that a generated body calls for an attribute. */
  datatype Coding = AsStr | AsIntOrStr | AsBool | AsInt64 | AsList

  predicate Typed(coding: Coding, v: Value) {
    match v
    case Null => true
    case Unknown => true
    case Str(_) => coding == AsStr || coding == AsIntOrStr
    case Flag(_) => coding == AsBool
    case Whole(n) => coding == AsInt64 && Numerals.IsInt64(n)
    case Texts(_) => coding == AsList
  }

  function JStrings(items: seq<string>): seq<Json> {
    seq(|items|, i requires 0 <= i < |items| => JStr(items[i]))
  }

  /** What the put helper writes for a known value. */
  function Encode(coding: Coding, v: Value): Json {
    match v
    case Str(t) =>
      if coding == AsIntOrStr && Numerals.Atoi(t).Some? then JNum(Numerals.Atoi(t).value) else JStr(t)
    case Flag(b) => JBool(b)
    case Whole(n) => JNum(n)
    case Texts(items) => JArr(JStrings(items))
    case _ => JNull
  }

  /** The body after a put: null and unknown leave it alone. */
  function After(coding: Coding, body: Fields, key: string, v: Value): Fields {
    if Known(v) then body[key := Encode(coding, v)] else body
  }

  /** The member that a put of a known value must leave: the JSON form that the type-strict router takes. */
  ghost predicate OnTheWire(coding: Coding, v: Value, j: Json) {
    match v
    case Str(t) =>
      if coding == AsIntOrStr then (forall n :: j == JNum(n) <==> Numerals.Numeral(t, n)) && (j.JNum? || j == JStr(t))
      else j == JStr(t)
    case Flag(b) => j == JBool(b)
    case Whole(n) => j == JNum(n)
    case Texts(items) =>
      j.JArr? && |j.items| == |items| && forall i :: 0 <= i < |items| ==> j.items[i] == JStr(items[i])
    case _ => false
  }

  /** A put of a known value sets this one member, and a put of null or unknown nothing. */
  ghost predicate Puts(coding: Coding, before: Fields, key: string, v: Value, after: Fields) {
    if v == Null || v == Unknown then after == before
    else
      && after.Keys == before.Keys + {key} && OnTheWire(coding, v, after[key])
      && forall k :: k in before && k != key ==> after[k] == before[k]
  }

  /**
   What each coding puts on the wire: an integer-or-string text as a number exactly when it is a numeral
   within int64, with its value, and as itself otherwise; the other values in the JSON type of theirs.
   */
  lemma AfterPuts(coding: Coding, body: Fields, key: string, v: Value)
    requires Typed(coding, v)
    ensures Puts(coding, body, key, v, After(coding, body, key, v))
  {
    if v.Str? && coding == AsIntOrStr {
      forall n
        ensures Numerals.Atoi(v.text) == Some(n) <==> Numerals.Numeral(v.text, n)
      {
        Numerals.AtoiIff(v.text, n);
      }
    }
  }

  /** So every integer that a configuration prints, such as a wireless channel, goes out as that number. */
  lemma PrintedIntegerIsNumber(body: Fields, key: string, n: int)
    requires Numerals.IsInt64(n)
    ensures After(AsIntOrStr, body, key, Str(Numerals.Itoa(n))) == body[key := JNum(n)]
  {
    Numerals.AtoiOfItoa(n);
  }

  method PutStr(out: Object, key: string, v: Value)
    requires Typed(AsStr, v)
    modifies out
    ensures out.m == After(AsStr, old(out.m), key, v)
    ensures Puts(AsStr, old(out.m), key, v, out.m)
  {
    AfterPuts(AsStr, out.m, key, v);
    if Known(v) {
      out.Put(key, JStr(v.text));
    }
  }

  method PutIntOrStr(out: Object, key: string, v: Value)
    requires Typed(AsIntOrStr, v)
    modifies out
    ensures out.m == After(AsIntOrStr, old(out.m), key, v)
    ensures Puts(AsIntOrStr, old(out.m), key, v, out.m)
  {
    AfterPuts(AsIntOrStr, out.m, key, v);
    if !Known(v) {
      return;
    }
    var n := Numerals.Atoi(v.text);
    if n.Some? {
      out.Put(key, JNum(n.value));
      return;
    }
    out.Put(key, JStr(v.text));
  }

  method PutBool(out: Object, key: string, v: Value)
    requires Typed(AsBool, v)
    modifies out
    ensures out.m == After(AsBool, old(out.m), key, v)
    ensures Puts(AsBool, old(out.m), key, v, out.m)
  {
    AfterPuts(AsBool, out.m, key, v);
    if Known(v) {
      out.Put(key, JBool(v.on));
    }
  }

  method PutInt64(out: Object, key: string, v: Value)
    requires Typed(AsInt64, v)
    modifies out
    ensures out.m == After(AsInt64, old(out.m), key, v)
    ensures Puts(AsInt64, old(out.m), key, v, out.m)
  {
    AfterPuts(AsInt64, out.m, key, v);
    if Known(v) {
      out.Put(key, JNum(v.n));
    }
  }

  method PutList(out: Object, key: string, v: Value)
    requires Typed(AsList, v)
    modifies out
    ensures out.m == After(AsList, old(out.m), key, v)
    ensures Puts(AsList, old(out.m), key, v, out.m)
  {
    AfterPuts(AsList, out.m, key, v);
    if Known(v) {
      out.Put(key, JArr(JStrings(v.items)));
    }
  }

  // ------------------------------------------------------------- reading back

  /**
   fmt's `%v` of a decoded JSON value: numbers are float64 by then. The text of a nested object is
   not spelled out.
   */
  function Printed(j: Json): string {
    match j
    case JNull => "<nil>"
    case JBool(b) => if b then "true" else "false"
    case JNum(n) => Numerals.FloatText(Numerals.ToFloat(n))
    case JStr(t) => t
    case JArr(items) => "[" + PrintedAll(items) + "]"
    case JObj(_) => "map[]"
  }

  function PrintedAll(items: seq<Json>): string {
    if items == [] then ""
    else Printed(items[0]) + (if |items| == 1 then "" else " " + PrintedAll(items[1..]))
  }

  function StrVal(m: Fields, key: string): Value {
    var j := Member(m, key);
    if j.JNull? then Null else if j.JStr? then Str(j.text) else Str(Printed(j))
  }

  function BoolVal(m: Fields, key: string): Value {
    var j := Member(m, key);
    if j.JBool? then Flag(j.on) else Null
  }

  function Int64Val(m: Fields, key: string): Value {
    var j := Member(m, key);
    if j.JNum? then Whole(Numerals.Int64OfFloat(Numerals.ToFloat(j.n))) else Null
  }

  /** The elements of a list as strings; a null element is skipped. */
  function Elements(items: seq<Json>): seq<string> {
    if items == [] then []
    else
      var last := items[|items| - 1];
      Elements(items[..|items| - 1]) + (if last.JNull? then [] else [Printed(last)])
  }

  function ListValue(m: Fields, key: string): Value {
    var j := Member(m, key);
    if j.JArr? then Texts(Elements(j.items)) else Null
  }

  /** listVal, with its loop over the array. */
  method ListVal(m: Fields, key: string) returns (v: Value)
    ensures v == ListValue(m, key)
  {
    if key !in m || !m[key].JArr? {
      return Null;
    }
    var arr := m[key].items;
    var items: seq<string> := [];
    for i := 0 to |arr|
      invariant items == Elements(arr[..i])
    {
      assert arr[..i + 1][..i] == arr[..i];
      var e := arr[i];
      if e.JStr? {
        items := items + [e.text];
      } else if !e.JNull? {
        items := items + [Printed(e)];
      }
    }
    assert arr[..|arr|] == arr;
    v := Texts(items);
  }

  function ListValKeepEmpty(m: Fields, key: string, prior: Value): Value {
    if ListValue(m, key).Null? && prior == Texts([]) then prior else ListValue(m, key)
  }

  function BoolValDefault(m: Fields, key: string): Value {
    if BoolVal(m, key).Null? then Flag(false) else BoolVal(m, key)
  }

  /** The read of an attribute that `coding` writes, with the planned or prior value at hand. */
  function Decode(coding: Coding, m: Fields, key: string, prior: Value): Value {
    match coding
    case AsStr => StrVal(m, key)
    case AsIntOrStr => StrVal(m, key)
    case AsBool => BoolVal(m, key)
    case AsInt64 => Int64Val(m, key)
    case AsList => ListValKeepEmpty(m, key, prior)
  }

  /** A printed JSON scalar, with whole numbers below 10^6 as they are written. */
  predicate ScalarText(j: Json, t: string) {
    match j
    case JStr(s) => t == s
    case JBool(b) => t == (if b then "true" else "false")
    case JNum(n) => -1_000_000 < n < 1_000_000 ==> t == Numerals.Itoa(n)
    case _ => true
  }

  /**
   What a read makes of one JSON member. Each type reads its own JSON form; null, an absent member and
   a member of another type read as null, but a string attribute takes any member as text, a boolean
   with a default reads false, and a known empty list stays.
   */
  lemma ReadsByType(m: Fields, key: string, prior: Value)
    ensures var j := Member(m, key);
            && (StrVal(m, key) == Null <==> j == JNull)
            && (j != JNull ==> StrVal(m, key).Str? && ScalarText(j, StrVal(m, key).text))
            && (forall b :: BoolVal(m, key) == Flag(b) <==> j == JBool(b))
            && (forall b :: BoolValDefault(m, key) == Flag(b) <==> if b then j == JBool(true) else j != JBool(true))
            && (BoolVal(m, key).Flag? || BoolVal(m, key) == Null)
            && (if j.JNum? then Int64Val(m, key).Whole? else Int64Val(m, key) == Null)
            && (j.JNum? && Numerals.IsInt64(j.n) && Numerals.Exact(j.n) ==> Int64Val(m, key) == Whole(j.n))
            && (if j.JArr? then ListValue(m, key).Texts? else ListValue(m, key) == Null)
            && (ListValKeepEmpty(m, key, prior) ==
                  if !j.JArr? && prior == Texts([]) then Texts([]) else ListValue(m, key))
  {
    var j := Member(m, key);
    if j.JNum? {
      if -1_000_000 < j.n < 1_000_000 {
        Numerals.SmallIsExact(j.n);
      }
      if Numerals.IsInt64(j.n) {
        Numerals.IntegerTrip(j.n);
      }
    }
  }

  lemma ElementAlone(j: Json)
    ensures if j == JNull then Elements([j]) == [] else |Elements([j])| == 1 && ScalarText(j, Elements([j])[0])
  {
    assert [j][..0] == [];
    if j.JNum? && -1_000_000 < j.n < 1_000_000 {
      Numerals.SmallIsExact(j.n);
    }
  }

  /** A list reads element by element and in order. */
  lemma {:induction false} ElementsAppend(a: seq<Json>, b: seq<Json>)
    ensures Elements(a + b) == Elements(a) + Elements(b)
    decreases |b|
  {
    if b == [] {
      assert a + b == a;
    } else {
      ElementsAppend(a, b[..|b| - 1]);
      assert (a + b)[..|a + b| - 1] == a + b[..|b| - 1];
    }
  }

  lemma {:induction false} ElementsOfStrings(items: seq<string>)
    ensures Elements(JStrings(items)) == items
  {
    if items != [] {
      var front := items[..|items| - 1];
      ElementsOfStrings(front);
      assert JStrings(items)[..|items| - 1] == JStrings(front);
      assert items == front + [items[|items| - 1]];
    }
  }

  /** What an integer-or-string attribute reads back as. */
  function UnionTrip(t: string): string {
    if Numerals.Atoi(t).Some? then Numerals.FloatText(Numerals.ToFloat(Numerals.Atoi(t).value)) else t
  }

  predicate UnionFaithful(t: string) {
    match Numerals.Atoi(t)
    case None => true
    case Some(n) => Numerals.Canonical(t) && -Numerals.EXPONENT_FROM < n < Numerals.EXPONENT_FROM
  }

  /**
   The integer-or-string trip is the identity exactly on the texts that are no whole number and on the
   canonical numerals below a million in magnitude.
   */
  lemma UnionTripIff(t: string)
    ensures UnionTrip(t) == t <==> UnionFaithful(t)
  {
    if Numerals.Atoi(t).Some? {
      var n := Numerals.Atoi(t).value;
      if -Numerals.EXPONENT_FROM < n < Numerals.EXPONENT_FROM {
        Numerals.SmallIsExact(n);
        Numerals.ItoaOfAtoi(t);
      } else {
        Numerals.RoundingStaysLarge(n);
        Numerals.ExponentFormIsNoNumeral(Numerals.ToFloat(n));
      }
    }
  }

  /** A second trip changes nothing, whatever the text. */
  lemma UnionTripIsIdempotent(t: string)
    ensures UnionTrip(UnionTrip(t)) == UnionTrip(t)
  {
    if Numerals.Atoi(t).Some? {
      var n := Numerals.Atoi(t).value;
      if -Numerals.EXPONENT_FROM < n < Numerals.EXPONENT_FROM {
        Numerals.SmallIsExact(n);
        Numerals.AtoiOfItoa(n);
      } else {
        Numerals.RoundingStaysLarge(n);
        Numerals.ExponentFormIsNoNumeral(Numerals.ToFloat(n));
      }
    }
  }

  /** The known values that JSON and float64 carry unchanged. */
  predicate Faithful(coding: Coding, v: Value) {
    match v
    case Str(t) => coding == AsIntOrStr ==> UnionFaithful(t)
    case Whole(n) => Numerals.Exact(n)
    case _ => true
  }

  /** A server that echoes the member gives the value back exactly when the value is faithful. */
  lemma EchoReadsBack(coding: Coding, key: string, v: Value, obj: Fields)
    requires Typed(coding, v) && Known(v)
    requires key in obj && obj[key] == Encode(coding, v)
    ensures Decode(coding, obj, key, v) == v <==> Faithful(coding, v)
  {
    match v {
      case Str(t) => UnionTripIff(t);
      case Whole(n) => Numerals.IntegerTrip(n);
      case Texts(items) => ElementsOfStrings(items);
      case _ =>
    }
  }

  /** What an echoed value reads back as is faithful, whatever the value: a second trip changes nothing. */
  lemma EchoIsFaithful(coding: Coding, v: Value)
    requires Typed(coding, v) && Known(v) && v != Str("") && v != Texts([])
    ensures var w := Decode(coding, map["" := Encode(coding, v)], "", Null);
            Known(w) && Typed(coding, w) && Faithful(coding, w) && w != Str("") && w != Texts([])
  {
    match v {
      case Str(t) =>
        UnionTripIff(UnionTrip(t));
        UnionTripIsIdempotent(t);
      case Whole(n) => Numerals.TripIsExact(n);
      case Texts(items) => ElementsOfStrings(items);
      case _ =>
    }
  }

  /** Faithful values that are written alike are alike. */
  lemma EncodeIsInjective(coding: Coding, v: Value, w: Value)
    requires Typed(coding, v) && Typed(coding, w) && Known(v) && Known(w)
    requires Faithful(coding, v) && Faithful(coding, w)
    requires Encode(coding, v) == Encode(coding, w)
    ensures v == w
  {
    var obj := map["" := Encode(coding, v)];
    EchoReadsBack(coding, "", v, obj);
    EchoReadsBack(coding, "", w, obj);
    if coding == AsList {
      ElementsOfStrings(v.items);
      ElementsOfStrings(w.items);
    }
  }
}
