/** The 0 -> 1 state upgraders (internal/provider/state_upgrades.go), on prior state as a JSON map. */
module Upgrades {
  import opened Json
  import Codec
  import Text

  // -------------------------------------------------------- string to list

  function JWords(text: string): Json {
    JArr(Codec.JStrings(Text.Fields(text)))
  }

  /** The map after wordsOfString. */
  function WithWords(m: Fields, key: string): Fields {
    if !Member(m, key).JStr? then m
    else if Text.Fields(m[key].text) == [] then m - {key}
    else m[key := JWords(m[key].text)]
  }

  method WordsOfString(raw: Object, key: string)
    modifies raw
    ensures raw.m == WithWords(old(raw.m), key)
  {
    if key !in raw.m || !raw.m[key].JStr? {
      return;
    }
    var parts := Text.Fields(raw.m[key].text);
    if |parts| == 0 {
      raw.Remove(key);
      return;
    }
    raw.Put(key, JArr(Codec.JStrings(parts)));
  }

  const IP6PREFIX: string := "ip6prefix"

  function Unbracketed(text: string): string {
    Text.TrimSuffix(Text.TrimPrefix(text, '['), ']')
  }

  function WithoutBrackets(m: Fields, key: string): Fields {
    if Member(m, key).JStr? then m[key := JStr(Unbracketed(m[key].text))] else m
  }

  /** The interface upgrader: strip the brackets of a printed list, then split into words. */
  function Upgraded(m: Fields, key: string): Fields {
    WithWords(WithoutBrackets(m, key), key)
  }

  method UpgradeInterface(raw: Object)
    modifies raw
    ensures raw.m == Upgraded(old(raw.m), "ip6prefix")
  {
    if IP6PREFIX in raw.m && raw.m[IP6PREFIX].JStr? {
      raw.Put(IP6PREFIX, JStr(Unbracketed(raw.m[IP6PREFIX].text)));
    }
    WordsOfString(raw, IP6PREFIX);
  }

  /** The text that `%v` prints for a list of strings. */
  lemma {:induction false} PrintedListOfStrings(ws: seq<string>)
    ensures Codec.PrintedAll(Codec.JStrings(ws)) == Text.JoinSpace(ws)
  {
    if |ws| > 1 {
      PrintedListOfStrings(ws[1..]);
      assert Codec.JStrings(ws)[1..] == Codec.JStrings(ws[1..]);
      assert ws[0] + " " + Text.JoinSpace(ws[1..]) == ws[0] + (" " + Text.JoinSpace(ws[1..]));
    }
  }

  lemma UnbracketsPrinted(ws: seq<string>)
    ensures Unbracketed(Codec.Printed(JArr(Codec.JStrings(ws)))) == Text.JoinSpace(ws)
  {
    PrintedListOfStrings(ws);
    var body := Text.JoinSpace(ws);
    var text := "[" + body + "]";
    assert text[1..] == body + "]";
    assert (body + "]")[..|body|] == body;
  }

  lemma JStringsInjective(a: seq<string>, b: seq<string>)
    requires Codec.JStrings(a) == Codec.JStrings(b)
    ensures a == b
  {
    Codec.ElementsOfStrings(a);
    Codec.ElementsOfStrings(b);
  }

  /**
   State that an older provider wrote by printing the answered list with `%v` is upgraded to that
   list, exactly when it has entries and each is a non-empty text without white space. Brackets do not
   matter. A printed empty list leaves the state altogether, as an absent uci list reads null.
   */
  lemma UpgradeUndoesPrinting(m: Fields, key: string, ws: seq<string>)
    requires Member(m, key) == JStr(Codec.Printed(JArr(Codec.JStrings(ws))))
    ensures Member(Upgraded(m, key), key) == JArr(Codec.JStrings(ws)) <==> ws != [] && Text.Words(ws)
    ensures ws == [] ==> key !in Upgraded(m, key)
  {
    UnbracketsPrinted(ws);
    var text := Text.JoinSpace(ws);
    assert Member(WithoutBrackets(m, key), key) == JStr(text);
    if Text.Words(ws) {
      Text.FieldsOfJoin(ws);
    }
    if Member(Upgraded(m, key), key) == JArr(Codec.JStrings(ws)) {
      JStringsInjective(Text.Fields(text), ws);
    }
  }

  /** The characters of a text that are not white space. */
  function Ink(s: string): nat {
    if s == "" then 0 else (if Text.IsSpace(s[0]) then 0 else 1) + Ink(s[1..])
  }

  lemma {:induction false} InkOfAppend(s: string, t: string)
    ensures Ink(s + t) == Ink(s) + Ink(t)
  {
    if s == "" {
      assert s + t == t;
    } else {
      assert (s + t)[1..] == s[1..] + t;
      InkOfAppend(s[1..], t);
    }
  }

  lemma TrimmedInk(text: string)
    requires text != "" && !Text.IsSpace(text[0]) && !Text.IsSpace(text[|text| - 1])
    ensures Ink(Unbracketed(text)) == Ink(text) ==> text[0] != '[' && text[|text| - 1] != ']'
  {
    var cut := Text.TrimPrefix(text, '[');
    assert text == [text[0]] + text[1..];
    InkOfAppend([text[0]], text[1..]);
    if cut != "" && cut[|cut| - 1] == ']' {
      assert cut == cut[..|cut| - 1] + "]";
      InkOfAppend(cut[..|cut| - 1], "]");
    }
  }

  lemma EndsOfJoin(w: string, rest: string)
    requires w != "" && rest != ""
    ensures var text := w + " " + rest;
            text != "" && text[0] == w[0] && text[|text| - 1] == rest[|rest| - 1]
  {
  }

  lemma {:induction false} JoinEnds(ws: seq<string>)
    requires ws != [] && Text.Words(ws)
    ensures var text := Text.JoinSpace(ws);
            && text != "" && text[0] == ws[0][0]
            && text[|text| - 1] == ws[|ws| - 1][|ws[|ws| - 1]| - 1]
  {
    if |ws| > 1 {
      JoinEnds(ws[1..]);
      EndsOfJoin(ws[0], Text.JoinSpace(ws[1..]));
    }
  }

  lemma {:induction false} InkOfFields(s: string)
    ensures Ink(Text.JoinSpace(Text.Fields(s))) == Ink(s)
    decreases |s|
  {
    if s == "" {
    } else if Text.IsSpace(s[0]) {
      InkOfFields(s[1..]);
    } else {
      var n := Text.WordLength(s);
      var w, rest := s[..n], s[n..];
      assert s == w + rest;
      InkOfFields(rest);
      InkOfAppend(w, rest);
      var ws := Text.Fields(rest);
      assert Text.Fields(s) == [w] + ws;
      if ws == [] {
        assert Text.JoinSpace([w]) == w;
      } else {
        assert ([w] + ws)[1..] == ws;
        InkOfAppend(w + " ", Text.JoinSpace(ws));
        InkOfAppend(w, " ");
      }
    }
  }

  lemma UnbracketedSplitsIff(ws: seq<string>)
    requires ws != [] && Text.Words(ws)
    ensures Text.Fields(Unbracketed(Text.JoinSpace(ws))) == ws
        <==> ws[0][0] != '[' && ws[|ws| - 1][|ws[|ws| - 1]| - 1] != ']'
  {
    var text := Text.JoinSpace(ws);
    JoinEnds(ws);
    Text.FieldsOfJoin(ws);
    if Text.Fields(Unbracketed(text)) == ws {
      InkOfFields(Unbracketed(text));
      TrimmedInk(text);
    }
  }

  /**
   A space-separated string of an older provider becomes the list of its words, exactly when the text
   neither opens with `[` nor ends with `]`, which no IPv6 prefix does.
   */
  lemma UpgradeSplitsWords(m: Fields, key: string, ws: seq<string>)
    requires ws != [] && Text.Words(ws) && Member(m, key) == JStr(Text.JoinSpace(ws))
    ensures Member(Upgraded(m, key), key) == JArr(Codec.JStrings(ws))
        <==> ws[0][0] != '[' && ws[|ws| - 1][|ws[|ws| - 1]| - 1] != ']'
  {
    UnbracketedSplitsIff(ws);
    if Member(Upgraded(m, key), key) == JArr(Codec.JStrings(ws)) {
      JStringsInjective(Text.Fields(Unbracketed(Text.JoinSpace(ws))), ws);
    }
  }

  /** A list, a null or an absent value stays, and every other key stays in any case. */
  lemma UpgradeTouchesOnlyStrings(m: Fields, key: string, other: string)
    ensures !Member(m, key).JStr? ==> Upgraded(m, key) == m
    ensures other != key ==>
        (other in Upgraded(m, key) <==> other in m) && Member(Upgraded(m, key), other) == Member(m, other)
  {
  }

  /** A second upgrade changes nothing. */
  lemma UpgradeIsIdempotent(m: Fields, key: string)
    ensures Upgraded(Upgraded(m, key), key) == Upgraded(m, key)
  {
    assert !Member(Upgraded(m, key), key).JStr?;
  }

  // ------------------------------------------------------- list to scalar

  function First(j: Json): Json {
    if !j.JArr? then j else if j.items == [] then JNull else j.items[0]
  }

  function DroppedOf(j: Json): nat {
    if j.JArr? && j.items != [] then |j.items| - 1 else 0
  }

  /** The map after firstOfList: an empty list removes the key. */
  function WithFirst(m: Fields, key: string): Fields {
    if !Member(m, key).JArr? then m
    else if m[key].items == [] then m - {key}
    else m[key := m[key].items[0]]
  }

  method FirstOfList(raw: Object, key: string) returns (dropped: nat)
    modifies raw
    ensures raw.m == WithFirst(old(raw.m), key)
    ensures dropped == DroppedOf(Member(old(raw.m), key))
  {
    if key !in raw.m || !raw.m[key].JArr? {
      return 0;
    }
    var list := raw.m[key].items;
    if |list| == 0 {
      raw.Remove(key);
      return 0;
    }
    raw.Put(key, list[0]);
    dropped := |list| - 1;
  }

  const REDIRECT_SELECTORS: seq<string> := ["src_ip", "src_port", "src_dip", "src_dport", "dest_ip", "dest_port"]

  /** A warning names the selector, how many values it held and how many were dropped. */
  datatype Warning = Warning(key: string, held: nat, dropped: nat)

  function Collapsed(m: Fields, keys: seq<string>): Fields
    decreases |keys|
  {
    if keys == [] then m else WithFirst(Collapsed(m, keys[..|keys| - 1]), keys[|keys| - 1])
  }

  predicate Distinct(keys: seq<string>) {
    forall i, j :: 0 <= i < j < |keys| ==> keys[i] != keys[j]
  }

  function Warnings(m: Fields, keys: seq<string>): seq<Warning>
    decreases |keys|
  {
    if keys == [] then []
    else
      var key := keys[|keys| - 1];
      var n := DroppedOf(Member(m, key));
      Warnings(m, keys[..|keys| - 1]) + (if n > 0 then [Warning(key, n + 1, n)] else [])
  }

  /** What collapsing does to one key: the selectors keep their first entry, all else stays. */
  lemma {:induction false} CollapsedAt(m: Fields, keys: seq<string>, key: string)
    requires Distinct(keys)
    ensures Member(Collapsed(m, keys), key) == if key in keys then First(Member(m, key)) else Member(m, key)
    ensures key in Collapsed(m, keys) <==> key in m && !(key in keys && m[key] == JArr([]))
    decreases |keys|
  {
    if keys != [] {
      var front, last := keys[..|keys| - 1], keys[|keys| - 1];
      CollapsedAt(m, front, key);
      assert key in keys <==> key in front || key == last;
      assert last !in front;
    }
  }

  /** The loop of the redirect upgrader over its selectors. */
  method CollapseSelectors(match_: Object, keys: seq<string>) returns (warnings: seq<Warning>)
    requires Distinct(keys)
    modifies match_
    ensures match_.m == Collapsed(old(match_.m), keys)
    ensures warnings == Warnings(old(match_.m), keys)
  {
    warnings := [];
    for i := 0 to |keys|
      invariant match_.m == Collapsed(old(match_.m), keys[..i])
      invariant warnings == Warnings(old(match_.m), keys[..i])
    {
      assert keys[..i + 1][..i] == keys[..i];
      assert keys[i] !in keys[..i];
      CollapsedAt(old(match_.m), keys[..i], keys[i]);
      var n := FirstOfList(match_, keys[i]);
      if n > 0 {
        warnings := warnings + [Warning(keys[i], n + 1, n)];
      }
    }
    assert keys[..|keys|] == keys;
  }

  const MATCH: string := "match"

  function UpgradedRedirect(m: Fields, keys: seq<string>): Fields {
    if Member(m, MATCH).JObj? then m[MATCH := JObj(Collapsed(m[MATCH].fields, keys))] else m
  }

  method UpgradeRedirect(raw: Object) returns (warnings: seq<Warning>)
    modifies raw
    ensures raw.m == UpgradedRedirect(old(raw.m), REDIRECT_SELECTORS)
    ensures warnings == Warnings(Members(Member(old(raw.m), MATCH)), REDIRECT_SELECTORS)
  {
    warnings := [];
    if MATCH in raw.m && raw.m[MATCH].JObj? {
      var nested := new Object(raw.m[MATCH].fields);
      warnings := CollapseSelectors(nested, REDIRECT_SELECTORS);
      raw.Put(MATCH, JObj(nested.m));
    } else {
      NothingToWarn(REDIRECT_SELECTORS);
    }
  }

  /**
   The redirect upgrade: in the match object each of the six selectors that held a list has its first
   entry, or is gone when the list was empty. Everything else stays, inside the object and outside.
   */
  lemma RedirectUpgradeIs(m: Fields, key: string)
    ensures var after := UpgradedRedirect(m, REDIRECT_SELECTORS);
            && after.Keys == m.Keys && (key != "match" && key in m ==> after[key] == m[key])
            && if !Member(m, "match").JObj? then after == m
               else
                 && after["match"].JObj?
                 && var was, now := m["match"].fields, after["match"].fields;
                 if key in {"src_ip", "src_port", "src_dip", "src_dport", "dest_ip", "dest_port"}
                    && Member(was, key).JArr?
                 then
                   var items := was[key].items;
                   if items == [] then key !in now else key in now && now[key] == items[0]
                 else (key in now <==> key in was) && Member(now, key) == Member(was, key)
  {
    if Member(m, "match").JObj? {
      CollapsedAt(m["match"].fields, REDIRECT_SELECTORS, key);
    }
  }

  lemma {:induction false} NothingToWarn(keys: seq<string>)
    ensures Warnings(map[], keys) == []
    decreases |keys|
  {
    if keys != [] {
      NothingToWarn(keys[..|keys| - 1]);
    }
  }

  /** How many values of a selector survive. */
  function Kept(j: Json): nat {
    if !j.JArr? then (if j.JNull? then 0 else 1) else if j.items == [] then 0 else 1
  }

  /** A selector is warned about exactly when it loses values, and then the count adds up. */
  lemma {:induction false} WarnedIffDropped(m: Fields, keys: seq<string>, w: Warning)
    requires Distinct(keys)
    ensures w in Warnings(m, keys) <==>
      && w.key in keys && Member(m, w.key).JArr? && |m[w.key].items| > 1
      && w.held == |m[w.key].items| && w.dropped + Kept(Member(m, w.key)) == w.held
    decreases |keys|
  {
    if keys != [] {
      WarnedIffDropped(m, keys[..|keys| - 1], w);
      assert w.key in keys <==> w.key in keys[..|keys| - 1] || w.key == keys[|keys| - 1];
    }
  }

  lemma WarningAlone(m: Fields, key: string)
    ensures Warnings(m, [key]) == if DroppedOf(Member(m, key)) == 0 then []
                                  else [Warning(key, DroppedOf(Member(m, key)) + 1, DroppedOf(Member(m, key)))]
  {
    assert [key][..0] == [];
  }

  /** Each selector is warned about once, in the order of the selectors. */
  lemma {:induction false} WarningsAppend(m: Fields, a: seq<string>, b: seq<string>)
    ensures Warnings(m, a + b) == Warnings(m, a) + Warnings(m, b)
    decreases |b|
  {
    if b == [] {
      assert a + b == a;
    } else {
      WarningsAppend(m, a, b[..|b| - 1]);
      assert (a + b)[..|a + b| - 1] == a + b[..|b| - 1];
    }
  }

  predicate Collapsible(m: Fields, keys: seq<string>) {
    exists i :: 0 <= i < |keys| && Member(m, keys[i]).JArr?
  }

  lemma {:induction false} NothingToCollapse(m: Fields, keys: seq<string>)
    requires !Collapsible(m, keys)
    ensures Collapsed(m, keys) == m
    decreases |keys|
  {
    if keys != [] {
      var front := keys[..|keys| - 1];
      forall i | 0 <= i < |front|
        ensures !Member(m, front[i]).JArr?
      {
        assert front[i] == keys[i];
      }
      NothingToCollapse(m, front);
    }
  }

  /** No selector holds a list of lists, as no match selector ever did. */
  predicate ScalarLists(m: Fields, keys: seq<string>) {
    forall i :: 0 <= i < |keys| ==> !First(Member(m, keys[i])).JArr?
  }

  /** Running the redirect upgrader twice is running it once, exactly when no list nests in a list. */
  lemma CollapseIsIdempotent(m: Fields, keys: seq<string>)
    requires Distinct(keys)
    ensures Collapsed(Collapsed(m, keys), keys) == Collapsed(m, keys) <==> ScalarLists(m, keys)
  {
    var once := Collapsed(m, keys);
    if ScalarLists(m, keys) {
      forall i | 0 <= i < |keys|
        ensures !Member(once, keys[i]).JArr?
      {
        CollapsedAt(m, keys, keys[i]);
      }
      NothingToCollapse(once, keys);
    }
    if Collapsed(once, keys) == once {
      forall i | 0 <= i < |keys|
        ensures !First(Member(m, keys[i])).JArr?
      {
        CollapsedAt(m, keys, keys[i]);
        CollapsedAt(once, keys, keys[i]);
        if Member(once, keys[i]).JArr? {
          FirstDiffers(Member(once, keys[i]));
          assert false;
        }
      }
    }
  }

  lemma FirstDiffers(j: Json)
    requires j.JArr?
    ensures First(j) != j
  {
    if j.items != [] {
      assert j.items[0] < j;
    }
  }
}
