/** `mergeDelta` (internal/provider/helpers.go): the smallest merge patch between two request bodies. */
module Delta {
  import opened Json

  /** What `body` builds: no null and no object among its members. */
  predicate Flat(body: Fields) {
    forall k :: k in body ==> !body[k].JNull? && !body[k].JObj?
  }

  predicate NullFree(body: Fields) {
    forall k :: k in body ==> !body[k].JNull?
  }

  predicate Named(planned: Fields, prior: Fields, key: string) {
    if key in planned then planned[key] != Member(prior, key) else key in prior
  }

  /** The patch as a whole: changed keys with their planned value, dropped keys with null. */
  function Delta(planned: Fields, prior: Fields): Fields {
    map k | k in planned.Keys + prior.Keys && Named(planned, prior, k) :: Member(planned, k)
  }

  /** `out` holds the part of the patch that concerns the keys outside `todo`. */
  ghost predicate DeltaSoFar(planned: Fields, prior: Fields, keys: set<string>, todo: set<string>, out: Fields) {
    && (forall k :: k in out <==> k in keys && k !in todo && Named(planned, prior, k))
    && forall k :: k in out ==> out[k] == Member(planned, k)
  }

  lemma DeltaIsWhole(planned: Fields, prior: Fields, out: Fields)
    requires DeltaSoFar(planned, prior, planned.Keys + prior.Keys, {}, out)
    ensures out == Delta(planned, prior)
  {
  }

  /** mergeDelta, with the map iterations of Go in whatever order. */
  method MergeDelta(planned: Fields, prior: Fields) returns (out: Fields)
    ensures out == Delta(planned, prior)
  {
    out := map[];
    var todo := planned.Keys;
    while todo != {}
      invariant todo <= planned.Keys && DeltaSoFar(planned, prior, planned.Keys, todo, out)
      decreases |todo|
    {
      var k :| k in todo;
      if planned[k] != Member(prior, k) {
        out := out[k := planned[k]];
      }
      todo := todo - {k};
    }
    todo := prior.Keys;
    while todo != {}
      invariant todo <= prior.Keys && DeltaSoFar(planned, prior, planned.Keys + prior.Keys, todo - planned.Keys, out)
      decreases |todo|
    {
      var k :| k in todo;
      if k !in planned {
        out := out[k := JNull];
      }
      todo := todo - {k};
    }
    DeltaIsWhole(planned, prior, out);
  }

  /** On this object, the key is not changed or can be set by naming its planned value. */
  predicate SettableAt(planned: Fields, prior: Fields, target: Fields, k: string) {
    k in planned && planned[k] != Member(prior, k) ==> MergePatch(Member(target, k), planned[k]) == planned[k]
  }

  predicate Settable(planned: Fields, prior: Fields, target: Fields) {
    forall k :: k in planned ==> SettableAt(planned, prior, target, k)
  }

  /** What the patch makes of any object: the plan on the keys it changes, the object's own elsewhere. */
  function Patched(planned: Fields, prior: Fields, target: Fields): Fields {
    map k | k in planned.Keys + target.Keys
         && (if Member(planned, k) == Member(prior, k) then k in target else k in planned) ::
      if Member(planned, k) == Member(prior, k) then target[k] else planned[k]
  }

  lemma MergedAt(planned: Fields, prior: Fields, target: Fields, k: string)
    requires NullFree(planned) && NullFree(prior)
    ensures var got, goal := MergePatch(JObj(target), JObj(Delta(planned, prior))).fields,
        Patched(planned, prior, target);
            && (k in got <==> k in goal)
            && (k in got ==> (got[k] == goal[k] <==> SettableAt(planned, prior, target, k)))
            && (!SettableAt(planned, prior, target, k) ==> k in got)
  {
  }

  /** One object at a time: the patch does what it should if every changed value replaces what is there. */
  lemma DeltaPatchesAt(planned: Fields, prior: Fields, target: Fields)
    requires NullFree(planned) && NullFree(prior)
    ensures MergePatch(JObj(target), JObj(Delta(planned, prior))) == JObj(Patched(planned, prior, target))
        <==> Settable(planned, prior, target)
  {
    var got, goal := MergePatch(JObj(target), JObj(Delta(planned, prior))).fields, Patched(planned, prior, target);
    forall k
      ensures k in got <==> k in goal
      ensures k in got ==> (got[k] == goal[k] <==> SettableAt(planned, prior, target, k))
      ensures !SettableAt(planned, prior, target, k) ==> k in got
    {
      MergedAt(planned, prior, target, k);
    }
    if Settable(planned, prior, target) {
      assert got == goal;
    }
  }

  /** No changed value is an object. */
  predicate ChangesAreFlat(planned: Fields, prior: Fields) {
    forall k :: k in planned && planned[k] != Member(prior, k) ==> !planned[k].JObj?
  }

  lemma LongerName(names: set<string>) returns (name: string)
    ensures forall k :: k in names ==> |k| < |name|
    decreases |names|
  {
    if names == {} {
      return "";
    }
    var k :| k in names;
    var longer := LongerName(names - {k});
    name := if |k| < |longer| then longer else k + "x";
    assert forall j :: j in names ==> j in names - {k} || j == k;
  }

  /** An object that merges into what is there instead of replacing it, given a member that it lacks. */
  lemma ObjectsMerge(fields: Fields) returns (there: Json)
    ensures MergePatch(there, JObj(fields)) != JObj(fields)
  {
    var name := LongerName(fields.Keys);
    there := JObj(map[name := JBool(true)]);
    assert name in MergePatch(there, JObj(fields)).fields;
  }

  /**
   RFC 7396 gives, on every object that the router can hold, the plan on the keys that the plan changes
   and the object's own values elsewhere, exactly when no changed value is an object.
   */
  lemma DeltaPatches(planned: Fields, prior: Fields)
    requires NullFree(planned) && NullFree(prior)
    ensures (forall target: Fields ::
        MergePatch(JObj(target), JObj(Delta(planned, prior))) == JObj(Patched(planned, prior, target)))
        <==> ChangesAreFlat(planned, prior)
  {
    if ChangesAreFlat(planned, prior) {
      forall target: Fields
        ensures MergePatch(JObj(target), JObj(Delta(planned, prior))) == JObj(Patched(planned, prior, target))
      {
        DeltaPatchesAt(planned, prior, target);
      }
    } else {
      var k :| k in planned && planned[k] != Member(prior, k) && planned[k].JObj?;
      var there := ObjectsMerge(planned[k].fields);
      var target := map[k := there];
      DeltaPatchesAt(planned, prior, target);
      assert Member(target, k) == there;
    }
  }

  /** The bodies of this provider are flat, so the law holds on every object. */
  lemma FlatBodiesPatch(planned: Fields, prior: Fields, target: Fields)
    requires Flat(planned) && NullFree(prior)
    ensures MergePatch(JObj(target), JObj(Delta(planned, prior))) == JObj(Patched(planned, prior, target))
  {
    DeltaPatchesAt(planned, prior, target);
  }

  /** On the prior body itself the patch gives the planned body. */
  lemma DeltaTurnsPriorIntoPlanned(planned: Fields, prior: Fields)
    requires Flat(planned) && NullFree(prior)
    ensures MergePatch(JObj(prior), JObj(Delta(planned, prior))) == JObj(planned)
  {
    FlatBodiesPatch(planned, prior, prior);
    assert Patched(planned, prior, prior) == planned;
  }

  /** Every merge patch that turns the prior body into the planned one contains this patch. */
  lemma DeltaIsLeast(planned: Fields, prior: Fields, patch: Fields)
    requires Flat(planned) && NullFree(prior)
    requires MergePatch(JObj(prior), JObj(patch)) == JObj(planned)
    ensures forall k :: k in Delta(planned, prior) ==> k in patch && patch[k] == Delta(planned, prior)[k]
  {
    var got := MergePatch(JObj(prior), JObj(patch)).fields;
    forall k | k in Delta(planned, prior)
      ensures k in patch && patch[k] == Delta(planned, prior)[k]
    {
      if k in planned {
        assert got[k] == planned[k];
        assert MergePatch(Member(prior, k), Member(patch, k)).JObj? <==> Member(patch, k).JObj?;
      } else {
        assert k !in got;
      }
    }
  }

  /** The patch is empty exactly when nothing is planned to change. */
  lemma DeltaEmptyIff(planned: Fields, prior: Fields)
    requires NullFree(planned) && NullFree(prior)
    ensures Delta(planned, prior) == map[] <==> planned == prior
  {
    if Delta(planned, prior) == map[] {
      forall k | k in planned.Keys + prior.Keys
        ensures k in planned && k in prior && planned[k] == prior[k]
      {
        assert k !in Delta(planned, prior);
      }
      assert planned.Keys == prior.Keys;
    }
  }
}
