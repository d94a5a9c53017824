/**
 uapi as the provider's comments state it: what it stores of a request, what it answers with, and
 which requests it refuses because of the discriminator.
 */
module Router {
  import opened Codec
  import opened FieldScope
  import opened Json
  import opened Schema

  /**
   `hidden` are the fields that a discriminator value does not take and a read leaves out; `defaults`
   is what a read answers for an absent option, null when nothing; and `derived` is what it answers
   for a read-only attribute, given the stored options.
   */
  datatype Contract = Contract(hidden: string -> set<string>, defaults: (string, string) -> Json,
                               derived: (Fields, string) -> Json)

  /** uci stores no null, no empty list and no empty string. */
  predicate Storable(j: Json) {
    !j.JNull? && j != JArr([]) && j != JStr("")
  }

  function Stored(body: Fields): Fields {
    map k | k in body && Storable(body[k]) :: body[k]
  }

  function Discriminator(field: string, opts: Fields): string {
    var j := Member(opts, field);
    if j.JStr? then j.text else ""
  }

  predicate ReadOnly(attrs: Attributes, k: string) {
    k in attrs && !Writable(attrs[k].kind)
  }

  predicate Shown(c: Contract, attrs: Attributes, v: string, opts: Fields, k: string) {
    if ReadOnly(attrs, k) then !c.derived(opts, k).JNull?
    else
      && k !in c.hidden(v)
      && (k in attrs ==> Schema.Read(attrs[k].kind))
      && (k in opts || (k in attrs && !c.defaults(v, k).JNull?))
  }

  /** The object in an answer, for a section whose discriminator value is `v`. */
  function View(c: Contract, attrs: Attributes, v: string, opts: Fields): Fields {
    map k | k in attrs.Keys + opts.Keys && Shown(c, attrs, v, opts, k) ::
      if ReadOnly(attrs, k) then c.derived(opts, k) else if k in opts then opts[k] else c.defaults(v, k)
  }

  /** A request value that asks for nothing. */
  predicate AsksForNothing(j: Json) {
    j.JNull? || j == JStr("") || j == JArr([])
  }

  /** uapi's scope rule: no value for a field that the discriminator value does not take. */
  predicate ScopeAccepts(c: Contract, v: string, named: Fields) {
    forall k :: k in named && k in c.hidden(v) ==> AsksForNothing(named[k])
  }

  /** The type gate: a named discriminator is one that the request enum lists. */
  predicate GateAccepts(scope: Scope, named: Fields) {
    scope.field in named ==> named[scope.field].JStr? && named[scope.field].text in scope.known
  }

  /** A value that the server can hold and answer with: it reads as a known value that JSON carries. */
  predicate Readable(a: Attribute, j: Json) {
    var v := Decode(CodingOf(a), map["" := j], "", Null);
    Storable(j) && Known(v) && Typed(CodingOf(a), v) && Faithful(CodingOf(a), v) && v != Str("") && v != Texts([])
  }

  /** Options that the server can hold: every modelled one reads as what its type says. */
  predicate Sane(attrs: Attributes, opts: Fields) {
    && (forall k :: k in opts ==> Storable(opts[k]))
    && forall k :: k in opts && k in attrs && Sent(attrs[k].kind) && Schema.Read(attrs[k].kind) ==>
        Readable(attrs[k], opts[k])
  }

  /** For a modelled value the hidden fields are the table's, and the discriminator is never hidden. */
  ghost predicate HidesByTable(c: Contract, scope: Scope, attrs: Attributes) {
    && (forall v, k :: v in scope.known && k in attrs && Writable(attrs[k].kind) ==>
        (k in c.hidden(v) <==> k in scope.Excluded(v)))
    && (forall v :: scope.field !in c.hidden(v))
  }

  /** A list, a clear-on-omit field and the discriminator read null when absent; a default is readable. */
  ghost predicate FillsIn(c: Contract, scope: Scope, attrs: Attributes) {
    && (forall v, k :: k in attrs && (attrs[k].ty == ListType || attrs[k].kind == OptClear || k == scope.field) ==>
          c.defaults(v, k).JNull?)
    && (forall v, k :: k in attrs && Sent(attrs[k].kind) && !c.defaults(v, k).JNull? ==>
        Readable(attrs[k], c.defaults(v, k)))
  }

  /** The contract that the planner counts on. A default may come with some values and not with others. */
  ghost predicate WellBehaved(c: Contract, scope: Scope, attrs: Attributes) {
    HidesByTable(c, scope, attrs) && FillsIn(c, scope, attrs)
  }

  lemma DecodeDependsOnMember(coding: Coding, m: Fields, n: Fields, j: string, k: string, prior: Value)
    requires Member(m, j) == Member(n, k)
    ensures Decode(coding, m, j, prior) == Decode(coding, n, k, prior)
  {
  }

  /** A read of a shown attribute that holds something is that value, whatever the prior. */
  lemma ReadsValue(a: Attribute, obj: Fields, k: string, prior: Value)
    requires a.kind != ComputedBool && Schema.Read(a.kind) && k in obj && Readable(a, obj[k])
    ensures ReadOne(a, obj, k, prior) == Decode(CodingOf(a), map["" := obj[k]], "", Null)
    ensures var v := ReadOne(a, obj, k, prior);
            Known(v) && Typed(CodingOf(a), v) && Faithful(CodingOf(a), v) && v != Str("") && v != Texts([])
  {
  }

  /** A read of an absent attribute is null, or the empty list that was there. */
  lemma ReadsNothing(a: Attribute, obj: Fields, k: string, prior: Value)
    requires a.kind != ComputedBool && Schema.Read(a.kind) && k !in obj
    ensures ReadOne(a, obj, k, prior) == if CodingOf(a) == AsList && prior == Texts([]) then prior else Null
  {
  }

  /** What is stored of a value is readable, and reads as the value exactly when JSON carries it. */
  lemma EncodedIsReadable(a: Attribute, v: Value)
    requires Known(v) && Typed(CodingOf(a), v) && v != Str("") && v != Texts([])
    ensures Readable(a, Encode(CodingOf(a), v))
    ensures Decode(CodingOf(a), map["" := Encode(CodingOf(a), v)], "", Null) == v <==> Faithful(CodingOf(a), v)
  {
    var j := Encode(CodingOf(a), v);
    EchoReadsBack(CodingOf(a), "", v, map["" := j]);
    EchoIsFaithful(CodingOf(a), v);
    DecodeIgnoresPrior(CodingOf(a), j, v);
    if v.Texts? {
      assert |JStrings(v.items)| == |v.items|;
    }
  }

  lemma DecodeIgnoresPrior(coding: Coding, j: Json, prior: Value)
    requires !j.JNull? && prior != Texts([])
    ensures Decode(coding, map["" := j], "", prior) == Decode(coding, map["" := j], "", Null)
  {
  }
}
