/** JSON values, JSON Merge Patch (section 2 of RFC 7396) and a mutable JSON object. */
module Json {

  datatype Json =
    | JNull
    | JBool(on: bool)
    | JNum(n: int)
    | JStr(text: string)
    | JArr(items: seq<Json>)
    | JObj(fields: map<string, Json>)

  type Fields = map<string, Json>

  /** The members of a JSON value, which has none unless it is an object. */
  function Members(j: Json): Fields {
    if j.JObj? then j.fields else map[]
  }

  function Member(m: Fields, key: string): Json {
    if key in m then m[key] else JNull
  }

  /**
   MergePatch of section 2 of RFC 7396: an object patch changes the members it names, removes those it
   names with null, and treats a target that is no object as an empty one.
   */
  function MergePatch(target: Json, patch: Json): Json
    decreases patch
  {
    if patch.JObj? then
      var base := Members(target);
      JObj(map k | k in base.Keys + patch.fields.Keys && !(k in patch.fields && patch.fields[k].JNull?) ::
             if k in patch.fields then MergePatch(Member(base, k), patch.fields[k]) else base[k])
    else patch
  }

  /** A Go map[string]any that the source fills or rewrites in place. */
  class Object {
    var m: Fields

    constructor (m: Fields)
      ensures this.m == m
    {
      this.m := m;
    }

    method Put(key: string, value: Json)
      modifies this
      ensures m == old(m)[key := value]
    {
      m := m[key := value];
    }

    method Remove(key: string)
      modifies this
      ensures m == old(m) - {key}
    {
      m := m - {key};
    }
  }
}
