/** Which specifications the scope compiler takes, and what its documentation says to a reader. */
module ScopeTables {
  import opened Wrappers
  import opened FieldScope
  import opened Json
  import opened Spec
  import opened Builder
  import opened ScopeCompiler

  // ------------------------------------------------------ which entries compile

  predicate IsNull(p: Prop) {
    TypeOf(p) == "null"
  }

  lemma {:induction false} NullsCount(thens: Sorted<Prop>)
    ensures Nulls(thens) <= |thens|
    ensures Nulls(thens) == 0 <==> forall i :: 0 <= i < |thens| ==> !IsNull(thens[i].1)
    ensures Nulls(thens) == |thens| <==> forall i :: 0 <= i < |thens| ==> IsNull(thens[i].1)
  {
    if thens != [] {
      NullsCount(thens[1..]);
      assert forall i :: 0 < i < |thens| ==> thens[i] == thens[1..][i - 1];
    }
  }

  /** An entry scopes fields when it nulls all that it names, is left to uapi when none, and is refused else. */
  lemma NullsOnlyIff(c: Cond)
    ensures NullsOnly(c) == Ok(true) <==> c.thens != [] && forall i :: 0 <= i < |c.thens| ==> IsNull(c.thens[i].1)
    ensures NullsOnly(c) == Ok(false) <==> forall i :: 0 <= i < |c.thens| ==> !IsNull(c.thens[i].1)
    ensures NullsOnly(c).Failed? ==> NullsOnly(c).error == Mixed
  {
    NullsCount(c.thens);
  }

  lemma {:induction false} FirstOutsideIff(names: seq<string>, writable: set<string>)
    ensures FirstOutside(names, writable).None? <==> forall i :: 0 <= i < |names| ==> names[i] in writable
  {
    if names != [] {
      FirstOutsideIff(names[1..], writable);
      assert forall i :: 0 < i < |names| ==> names[i] == names[1..][i - 1];
    }
  }

  /**
   An entry that the generator takes: it nulls nothing, or it nulls writable attributes only, and switches
   on one property by a text constant or an enum.
   */
  predicate TakesEntry(c: Cond, writable: set<string>) {
    if forall i :: 0 <= i < |c.thens| ==> !IsNull(c.thens[i].1) then true
    else
      && (forall i :: 0 <= i < |c.thens| ==> IsNull(c.thens[i].1) && c.thens[i].0 in writable)
      && |c.ifs| == 1
      && var sw := c.ifs[0].1; sw.const_.Some? ==> sw.const_.value.JStr? || sw.const_.value.JNull?
  }

  /** The discriminator of a null-only entry that the generator takes. */
  predicate SwitchesOn(c: Cond, name: string) {
    NullEntry(c) && |c.ifs| == 1 && c.ifs[0].0 == name
  }

  /** The generator takes the entry into a table whose discriminator is `name`. */
  predicate Fitting(c: Cond, writable: set<string>, name: string) {
    TakesEntry(c, writable) && (NullEntry(c) ==> SwitchesOn(c, name))
  }

  lemma OneCompiles(c: Cond, writable: set<string>, t: Table, name: string)
    ensures CompileOne(c, writable, t).Ok? && CompileOne(c, writable, t).value.field == name <==>
      && Fitting(c, writable, name)
      && if NullEntry(c) then t.field == "" || t.field == name else t.field == name
  {
    NullsOnlyIff(c);
    FirstOutsideIff(Keys(c.thens), writable);
    assert forall i :: 0 <= i < |c.thens| ==> Keys(c.thens)[i] == c.thens[i].0;
  }

  predicate NothingNulled(conds: seq<Cond>) {
    forall i :: 0 <= i < |conds| ==> !NullEntry(conds[i])
  }

  predicate AllFitting(conds: seq<Cond>, writable: set<string>, name: string) {
    forall i :: 0 <= i < |conds| ==> Fitting(conds[i], writable, name)
  }

  lemma FrontFits(conds: seq<Cond>, writable: set<string>, name: string)
    requires conds != []
    ensures var front, c := conds[..|conds| - 1], conds[|conds| - 1];
            && (AllFitting(conds, writable, name) <==> AllFitting(front, writable, name) && Fitting(c, writable, name))
            && (NothingNulled(conds) <==> NothingNulled(front) && !NullEntry(c))
            && (NothingNulled(front) && AllFitting(front, writable, name) ==> AllFitting(front, writable, ""))
  {
    var front := conds[..|conds| - 1];
    assert conds == front + [conds[|conds| - 1]];
  }

  /**
   The generator takes a list of entries with `name` as the discriminator exactly when it takes each of
   them, every null-only one switches on `name`, and there is one; without any there is no table.
   */
  lemma {:induction false} CompilesIff(conds: seq<Cond>, writable: set<string>, name: string)
    requires Named(conds)
    ensures Compile(conds, writable).Ok? && Compile(conds, writable).value.field == name <==>
      AllFitting(conds, writable, name) && (name == "" <==> NothingNulled(conds))
    decreases |conds|
  {
    if conds != [] {
      var front, c := conds[..|conds| - 1], conds[|conds| - 1];
      FrontFits(conds, writable, name);
      CompilesIff(front, writable, name);
      CompilesIff(front, writable, "");
      if Compile(front, writable).Ok? {
        OneCompiles(c, writable, Compile(front, writable).value, name);
      }
    }
  }

  // ------------------------------------------------------------ the known values

  lemma {:induction false} LookupAt(props: Sorted<Prop>, i: nat)
    requires DistinctKeys(props) && i < |props|
    ensures ScopeCompiler.Lookup(props, props[i].0) == props[i].1.enum
  {
    if i > 0 {
      LookupAt(props[1..], i - 1);
    }
  }

  lemma {:induction false} StringsIff(enum: seq<Json>)
    ensures Strings(enum).Ok? <==> forall i :: 0 <= i < |enum| ==> enum[i].JStr?
    ensures Strings(enum).Ok? ==> Strings(enum).value == seq(|enum|, i requires 0 <= i < |enum| => enum[i].text)
  {
    if enum != [] {
      StringsIff(enum[1..]);
      assert forall i :: 0 < i < |enum| ==> enum[i] == enum[1..][i - 1];
    }
  }

  lemma {:induction false} LookupMissing(props: Sorted<Prop>, name: string)
    requires forall i :: 0 <= i < |props| ==> props[i].0 != name
    ensures ScopeCompiler.Lookup(props, name) == []
  {
    if props != [] {
      LookupMissing(props[1..], name);
    }
  }

  /** The enum of a discriminator names its values: there are some, and all are texts. */
  predicate NamesValues(enum: seq<Json>) {
    enum != [] && forall i :: 0 <= i < |enum| ==> enum[i].JStr?
  }

  /**
   The known values are the texts of the discriminator's enum in its order, and without such an enum
   there is no table.
   */
  lemma KnownIsTheEnum(conds: seq<Cond>, writable: set<string>, props: Sorted<Prop>, name: string)
    requires DistinctKeys(props) && Compile(conds, writable).Ok? && Compile(conds, writable).value.field == name
    ensures ScopeOf(conds, writable, props) == Ok(None) <==> name == ""
    ensures name != "" ==>
      (ScopeOf(conds, writable, props).Ok? <==>
        exists i :: 0 <= i < |props| && props[i].0 == name && NamesValues(props[i].1.enum))
    ensures forall i :: 0 <= i < |props| && props[i].0 == name != "" && NamesValues(props[i].1.enum) ==>
      var enum := props[i].1.enum;
      var known := seq(|enum|, k requires 0 <= k < |enum| => enum[k].text);
      ScopeOf(conds, writable, props) == Ok(Some(Scope(name, known, Compile(conds, writable).value.rules)))
  {
    if i: nat :| i < |props| && props[i].0 == name {
      LookupAt(props, i);
      StringsIff(props[i].1.enum);
    } else {
      LookupMissing(props, name);
    }
  }

  // ------------------------------------------------------ what a reader is told

  /** How much of a text comes before the next backquote. */
  function Unquoted(s: string): (n: nat)
    ensures n <= |s|
  {
    if s == "" || s[0] == '`' then 0 else 1 + Unquoted(s[1..])
  }

  /** The texts that a description puts between backquotes, in order: what a reader takes from it. */
  function Backquoted(s: string): seq<string>
    decreases |s|, 1
  {
    FromQuote(s[Unquoted(s)..])
  }

  function FromQuote(s: string): seq<string>
    decreases |s|, 0
  {
    if s == "" then []
    else
      var n := Unquoted(s[1..]);
      if n + 1 == |s| then [] else [s[1..n + 1]] + Backquoted(s[n + 2..])
  }

  predicate NoBackquote(s: string) {
    '`' !in s
  }

  lemma {:induction false} UnquotedOf(plain: string, rest: string)
    requires NoBackquote(plain)
    ensures Unquoted(plain + rest) == |plain| + Unquoted(rest)
  {
    if plain == "" {
      assert plain + rest == rest;
    } else {
      assert (plain + rest)[1..] == plain[1..] + rest;
      UnquotedOf(plain[1..], rest);
    }
  }

  lemma PlainIsSkipped(plain: string, rest: string)
    requires NoBackquote(plain)
    ensures Backquoted(plain + rest) == Backquoted(rest)
  {
    UnquotedOf(plain, rest);
    assert (plain + rest)[|plain| + Unquoted(rest)..] == rest[Unquoted(rest)..];
  }

  lemma QuotedIsRead(v: string, rest: string)
    requires NoBackquote(v)
    ensures Backquoted("`" + v + "`" + rest) == [v] + Backquoted(rest)
  {
    var s, tail := "`" + v + "`" + rest, "`" + rest;
    UnquotedOf(v, tail);
    assert s[1..] == v + tail;
    assert s[1..|v| + 1] == v && s[|v| + 2..] == rest;
    assert Unquoted(s) == 0 && s[0..] == s;
    assert FromQuote(s) == [v] + Backquoted(rest);
  }

  lemma CommaStep(vs: seq<string>, rest: string)
    requires |vs| > 1
    ensures JoinComma(Quoted(vs)) + rest == "`" + vs[0] + "`" + (", " + (JoinComma(Quoted(vs[1..])) + rest))
  {
    assert Quoted(vs)[1..] == Quoted(vs[1..]);
    assert JoinComma(Quoted(vs)) == Quoted(vs)[0] + ", " + JoinComma(Quoted(vs[1..]));
  }

  lemma LongerListIsRead(vs: seq<string>, rest: string)
    requires |vs| > 1 && NoBackquote(vs[0])
    requires Backquoted(JoinComma(Quoted(vs[1..])) + rest) == vs[1..] + Backquoted(rest)
    ensures Backquoted(JoinComma(Quoted(vs)) + rest) == vs + Backquoted(rest)
  {
    var more := JoinComma(Quoted(vs[1..])) + rest;
    CommaStep(vs, rest);
    QuotedIsRead(vs[0], ", " + more);
    PlainIsSkipped(", ", more);
    AppendTwice([vs[0]], vs[1..], Backquoted(rest));
    assert vs == [vs[0]] + vs[1..];
  }

  lemma {:induction false} ListIsRead(vs: seq<string>, rest: string)
    requires forall i :: 0 <= i < |vs| ==> NoBackquote(vs[i])
    ensures Backquoted(JoinComma(Quoted(vs)) + rest) == vs + Backquoted(rest)
  {
    if vs == [] {
      assert JoinComma(Quoted(vs)) + rest == rest;
    } else if |vs| == 1 {
      QuotedIsRead(vs[0], rest);
      assert vs == [vs[0]];
    } else {
      ListIsRead(vs[1..], rest);
      LongerListIsRead(vs, rest);
    }
  }

  lemma AndStep(vs: seq<string>, rest: string)
    requires |vs| > 1
    ensures JoinAnd(Quoted(vs)) + rest
         == JoinComma(Quoted(vs[..|vs| - 1])) + (" and " + ("`" + vs[|vs| - 1] + "`" + rest))
  {
    var head, last := JoinComma(Quoted(vs[..|vs| - 1])), "`" + vs[|vs| - 1] + "`";
    assert JoinAnd(Quoted(vs)) == head + " and " + last by {
      assert Quoted(vs)[..|vs| - 1] == Quoted(vs[..|vs| - 1]);
    }
    AppendTwice(head + " and ", last, rest);
    AppendTwice(head, " and ", last + rest);
  }

  lemma EnumerationIsRead(vs: seq<string>, rest: string)
    requires vs != [] && forall i :: 0 <= i < |vs| ==> NoBackquote(vs[i])
    ensures Backquoted(JoinAnd(Quoted(vs)) + rest) == vs + Backquoted(rest)
  {
    var front, last := vs[..|vs| - 1], vs[|vs| - 1];
    QuotedIsRead(last, rest);
    assert vs == front + [last];
    if front != [] {
      AndStep(vs, rest);
      ListIsRead(front, " and " + ("`" + last + "`" + rest));
      PlainIsSkipped(" and ", "`" + last + "`" + rest);
      AppendTwice(front, [last], Backquoted(rest));
    }
  }

  /** A reader of the sentence about a field learns the values that take it, and nothing else. */
  lemma SentenceIsRead(field: string, takes: seq<string>)
    requires takes != [] && NoBackquote(field) && forall i :: 0 <= i < |takes| ==> NoBackquote(takes[i])
    ensures Backquoted(Sentence(field, takes)) == takes
  {
    var values := JoinAnd(Quoted(takes));
    AppendTwice(" Applies only to " + field + " ", values, ".");
    assert NoBackquote(" Applies only to " + field + " ");
    PlainIsSkipped(" Applies only to " + field + " ", values + ".");
    EnumerationIsRead(takes, ".");
    PlainIsSkipped(".", "");
    assert "." + "" == ".";
    assert takes + [] == takes;
  }

  lemma {:induction false} TakesInOrder(a: seq<string>, b: seq<string>, rules: seq<ScopeRule>, f: string)
    ensures Takes(a + b, rules, f) == Takes(a, rules, f) + Takes(b, rules, f)
    decreases |b|
  {
    if b == [] {
      assert a + b == a;
    } else {
      TakesInOrder(a, b[..|b| - 1], rules, f);
      assert (a + b)[..|a + b| - 1] == a + b[..|b| - 1];
    }
  }

  lemma ScopedIff(rules: seq<ScopeRule>, f: string)
    ensures ScopedField(rules, f) <==> exists v: string :: f in ExcludedBy(rules, v)
  {
    if ScopedField(rules, f) {
      var i :| 0 <= i < |rules| && f in rules[i].fields && rules[i].values != [];
      assert rules[i].values[0] in rules[i].values;
      ExcludedMembers(rules, rules[i].values[0], f);
    }
    if v: string :| f in ExcludedBy(rules, v) {
      ExcludedMembers(rules, v, f);
    }
  }

  lemma TextBehind(desc: string, intro: string, tail: string)
    ensures desc + intro <= desc + (intro + tail) && (desc + (intro + tail))[|desc|..] == intro + tail
  {
  }

  lemma OpensWith(intro: string, space: string, values: string, stop: string)
    ensures intro + space + values + stop == intro + (space + values + stop)
  {
  }

  lemma TakesArePlain(known: seq<string>, rules: seq<ScopeRule>, name: string)
    requires forall i :: 0 <= i < |known| ==> NoBackquote(known[i])
    ensures forall i :: 0 <= i < |Takes(known, rules, name)| ==> NoBackquote(Takes(known, rules, name)[i])
  {
    var takes := Takes(known, rules, name);
    forall i | 0 <= i < |takes|
      ensures NoBackquote(takes[i])
    {
      DocumentedValues(known, rules, name, takes[i]);
    }
  }

  /** The sentence behind a description, as a reader sees it. */
  lemma SentenceTells(field: string, known: seq<string>, rules: seq<ScopeRule>, name: string, desc: string)
    requires NoBackquote(field) && forall i :: 0 <= i < |known| ==> NoBackquote(known[i])
    requires Takes(known, rules, name) != []
    ensures var after := desc + Sentence(field, Takes(known, rules, name));
            && desc + (" Applies only to " + field) <= after
            && Backquoted(after[|desc|..]) == Takes(known, rules, name)
  {
    var takes := Takes(known, rules, name);
    TakesArePlain(known, rules, name);
    SentenceIsRead(field, takes);
    var values := JoinAnd(Quoted(takes));
    OpensWith(" Applies only to " + field, " ", values, ".");
    TextBehind(desc, " Applies only to " + field, " " + values + ".");
  }

  /**
   What the documentation pass does to a field: nothing unless some value excludes it, and else a sentence
   behind its description, from which a reader gets exactly the known values that do not exclude it. The
   generator stops exactly when some value excludes the field and no known one takes it.
   */
  lemma DocumentedIs(field: string, known: seq<string>, rules: seq<ScopeRule>, f: Field)
    requires NoBackquote(field) && forall i :: 0 <= i < |known| ==> NoBackquote(known[i])
    ensures var d := Documented(field, known, rules, f);
            var scoped := exists v: string :: f.name in ExcludedBy(rules, v);
            && (d.None? <==> scoped && forall v :: v in known ==> f.name in ExcludedBy(rules, v))
            && (d.Some? && !scoped ==> d.value == f)
            && (d.Some? && scoped ==>
                  && f.desc + (" Applies only to " + field) <= d.value.desc
                  && d.value.name == f.name && d.value.attr == f.attr
                  && forall v: string :: v in Backquoted(d.value.desc[|f.desc|..]) <==>
                       v in known && f.name !in ExcludedBy(rules, v))
  {
    ScopedIff(rules, f.name);
    var takes := Takes(known, rules, f.name);
    forall v
      ensures v in takes <==> v in known && f.name !in ExcludedBy(rules, v)
    {
      DocumentedValues(known, rules, f.name, v);
    }
    if takes != [] {
      assert takes[0] in takes;
      SentenceTells(field, known, rules, f.name, f.desc);
    }
  }
}
