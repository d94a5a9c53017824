/**
 The parts of Go's `strings` package that the provider relies on: white space, `TrimSpace`,
 `Fields`, `Join`, `TrimPrefix` and `TrimSuffix`.
 */
module Text {
  /** unicode.IsSpace. */
  predicate IsSpace(c: char) {
    var n := c as int;
    9 <= n <= 13 || n == 0x20 || n == 0x85 || n == 0xA0 || n == 0x1680 || 0x2000 <= n <= 0x200A
    || n == 0x2028 || n == 0x2029 || n == 0x202F || n == 0x205F || n == 0x3000
  }

  predicate NoSpace(s: string) {
    forall i :: 0 <= i < |s| ==> !IsSpace(s[i])
  }

  /** A word is what `strings.Fields` can return: not empty and free of white space. */
  predicate Word(s: string) {
    s != "" && NoSpace(s)
  }

  predicate Words(ws: seq<string>) {
    forall i :: 0 <= i < |ws| ==> Word(ws[i])
  }

  function TrimLeft(s: string): string {
    if s != "" && IsSpace(s[0]) then TrimLeft(s[1..]) else s
  }

  function TrimRight(s: string): string {
    if s != "" && IsSpace(s[|s| - 1]) then TrimRight(s[..|s| - 1]) else s
  }

  function TrimSpace(s: string): string {
    TrimRight(TrimLeft(s))
  }

  /** The length of the longest prefix without white space. */
  function WordLength(s: string): (n: nat)
    ensures n <= |s|
    ensures NoSpace(s[..n])
    ensures n < |s| ==> IsSpace(s[n])
  {
    if s == "" || IsSpace(s[0]) then 0
    else
      var n := 1 + WordLength(s[1..]);
      assert s[..n] == [s[0]] + s[1..][..n - 1];
      n
  }

  /** strings.Fields: the maximal runs of characters that are not white space. */
  function Fields(s: string): (ws: seq<string>)
    ensures Words(ws)
    decreases |s|
  {
    if s == "" then []
    else if IsSpace(s[0]) then Fields(s[1..])
    else [s[..WordLength(s)]] + Fields(s[WordLength(s)..])
  }

  /** strings.Join with one space. */
  function JoinSpace(ws: seq<string>): string {
    if ws == [] then ""
    else if |ws| == 1 then ws[0]
    else ws[0] + " " + JoinSpace(ws[1..])
  }

  function TrimPrefix(s: string, c: char): string {
    if s != "" && s[0] == c then s[1..] else s
  }

  function TrimSuffix(s: string, c: char): string {
    if s != "" && s[|s| - 1] == c then s[..|s| - 1] else s
  }

  lemma {:induction false} WordLengthOfWord(w: string, rest: string)
    requires NoSpace(w) && (rest == "" || IsSpace(rest[0]))
    ensures WordLength(w + rest) == |w|
  {
    if w == "" {
      assert w + rest == rest;
    } else {
      assert (w + rest)[1..] == w[1..] + rest;
      WordLengthOfWord(w[1..], rest);
    }
  }

  /** Splitting undoes joining. */
  lemma {:induction false} FieldsOfJoin(ws: seq<string>)
    requires Words(ws)
    ensures Fields(JoinSpace(ws)) == ws
  {
    if ws == [] {
    } else {
      var w := ws[0];
      var rest := if |ws| == 1 then "" else " " + JoinSpace(ws[1..]);
      assert JoinSpace(ws) == w + rest;
      WordLengthOfWord(w, rest);
      assert (w + rest)[..|w|] == w && (w + rest)[|w|..] == rest;
      if |ws| > 1 {
        FieldsOfJoin(ws[1..]);
        assert rest[1..] == JoinSpace(ws[1..]);
      }
      assert ws == [w] + ws[1..];
    }
  }

  lemma TrimSpaceOfPadded(s: string)
    requires Word(s)
    ensures TrimSpace(s) == TrimSpace(" " + s + " ") == s
  {
    var padded := " " + s + " ";
    assert TrimLeft(padded) == TrimLeft(padded[1..]) == s + " " by {
      assert padded[1..] == s + " ";
    }
    assert (s + " ")[..|s|] == s;
    assert TrimRight(s + " ") == TrimRight(s) == s;
  }

  predicate AllSpace(s: string) {
    forall i :: 0 <= i < |s| ==> IsSpace(s[i])
  }

  lemma {:induction false} TrimLeftIs(s: string) returns (space: string)
    ensures AllSpace(space) && s == space + TrimLeft(s)
    ensures TrimLeft(s) != "" ==> !IsSpace(TrimLeft(s)[0])
  {
    space := "";
    if s != "" && IsSpace(s[0]) {
      var rest := TrimLeftIs(s[1..]);
      space := [s[0]] + rest;
    }
  }

  lemma {:induction false} TrimRightIs(s: string) returns (space: string)
    ensures AllSpace(space) && s == TrimRight(s) + space
    ensures TrimRight(s) != "" ==> !IsSpace(TrimRight(s)[|TrimRight(s)| - 1])
  {
    space := "";
    if s != "" && IsSpace(s[|s| - 1]) {
      var rest := TrimRightIs(s[..|s| - 1]);
      space := rest + [s[|s| - 1]];
    }
  }

  /** Trimming takes the white space at both ends away, and nothing else. */
  lemma TrimSpaceIs(s: string) returns (before: string, after: string)
    ensures AllSpace(before) && AllSpace(after) && s == before + TrimSpace(s) + after
    ensures var t := TrimSpace(s); t != "" ==> !IsSpace(t[0]) && !IsSpace(t[|t| - 1])
  {
    before := TrimLeftIs(s);
    after := TrimRightIs(TrimLeft(s));
    assert TrimSpace(s) != "" ==> TrimSpace(s)[0] == TrimLeft(s)[0];
  }

  lemma {:induction false} WordLengthStopsAt(s: string, rest: string)
    requires rest != "" && IsSpace(rest[0])
    ensures WordLength(s + rest) == WordLength(s)
  {
    if s == "" {
      assert s + rest == rest;
    } else if !IsSpace(s[0]) {
      assert (s + rest)[1..] == s[1..] + rest;
      WordLengthStopsAt(s[1..], rest);
    }
  }

  /** The words on both sides of a white space are the words of the whole. */
  lemma {:induction false} FieldsOfAppend(s: string, c: char, t: string)
    requires IsSpace(c)
    ensures Fields(s + [c] + t) == Fields(s) + Fields(t)
    decreases |s|
  {
    var text, rest := s + [c] + t, [c] + t;
    assert text == s + rest;
    if s == "" {
      assert text == rest && rest[1..] == t;
    } else if IsSpace(s[0]) {
      assert text[1..] == s[1..] + [c] + t;
      FieldsOfAppend(s[1..], c, t);
    } else {
      var n := WordLength(s);
      WordLengthStopsAt(s, rest);
      assert text[..n] == s[..n] && text[n..] == s[n..] + [c] + t;
      FieldsOfAppend(s[n..], c, t);
    }
  }
}
