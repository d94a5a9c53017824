/**
 Query composition in `Client.do` and `Client.GetList`, and what a server reads back from it.
 Text is a string of UTF-8 bytes, each written as the character with its code.
 */
module Query {
  import opened Wrappers

  predicate IsBytes(s: string) {
    forall i :: 0 <= i < |s| ==> (s[i] as int) < 256
  }

  predicate Unreserved(c: char) {
    'a' <= c <= 'z' || 'A' <= c <= 'Z' || '0' <= c <= '9' || c == '-' || c == '_' || c == '.' || c == '~'
  }

  predicate Plain(s: string) {
    forall i :: 0 <= i < |s| ==> Unreserved(s[i])
  }

  function HexDigit(n: nat): (c: char)
    requires n < 16
    ensures Unreserved(c) && HexValue(c) == Some(n)
  {
    if n < 10 then '0' + (n as char) else 'A' + ((n - 10) as char)
  }

  function HexValue(c: char): Option<nat> {
    if '0' <= c <= '9' then Some(c as int - '0' as int)
    else if 'A' <= c <= 'F' then Some(c as int - 'A' as int + 10)
    else if 'a' <= c <= 'f' then Some(c as int - 'a' as int + 10)
    else None
  }

  function EscapeByte(c: char): string {
    if Unreserved(c) then [c]
    else if c == ' ' then "+"
    else ['%', HexDigit(c as int / 16 % 16), HexDigit(c as int % 16)]
  }

  /** url.QueryEscape, byte by byte; codes above 255 do not occur in a byte string. */
  function Escape(s: string): string {
    if s == "" then "" else EscapeByte(s[0]) + Escape(s[1..])
  }

  /** url.QueryUnescape; None is its error. */
  function Unescape(s: string): Option<string>
    decreases |s|
  {
    if s == "" then Some("")
    else if s[0] == '%' then
      if |s| < 3 || HexValue(s[1]).None? || HexValue(s[2]).None? then None
      else
        match Unescape(s[3..])
        case None => None
        case Some(rest) => Some([(16 * HexValue(s[1]).value + HexValue(s[2]).value) as char] + rest)
    else
      match Unescape(s[1..])
      case None => None
      case Some(rest) => Some([if s[0] == '+' then ' ' else s[0]] + rest)
  }

  lemma UnescapeByte(c: char, rest: string)
    requires (c as int) < 256 && Unescape(rest).Some?
    ensures Unescape(EscapeByte(c) + rest) == Some([c] + Unescape(rest).value)
  {
    var t := EscapeByte(c) + rest;
    if Unreserved(c) || c == ' ' {
      assert t[1..] == rest;
    } else {
      assert t[3..] == rest;
      assert 16 * (c as int / 16 % 16) + c as int % 16 == c as int;
    }
  }

  lemma {:induction false} UnescapeOfEscape(s: string)
    requires IsBytes(s)
    ensures Unescape(Escape(s)) == Some(s)
  {
    if s != "" {
      UnescapeOfEscape(s[1..]);
      UnescapeByte(s[0], Escape(s[1..]));
      assert s == [s[0]] + s[1..];
    }
  }

  lemma {:induction false} UnescapeOfPlain(s: string)
    requires Plain(s)
    ensures Unescape(s) == Some(s)
  {
    if s != "" {
      UnescapeOfPlain(s[1..]);
      UnescapeByte(s[0], s[1..]);
      assert s == EscapeByte(s[0]) + s[1..];
    }
  }

  lemma HexDigits(n: nat)
    requires n < 16
    ensures HexDigit(n) == "0123456789ABCDEF"[n]
  {
  }

  lemma EscapeAlone(c: char)
    ensures Escape([c]) == EscapeByte(c)
  {
    assert [c][1..] == "";
  }

  /** A byte alone: kept, a plus for a space, or a percent sign and two upper-case hex digits. */
  lemma EscapeOfByte(c: char, high: nat, low: nat)
    requires high < 16 && low < 16 && c as int == 16 * high + low
    ensures Escape([c]) ==
      if Unreserved(c) then [c]
      else if c == ' ' then "+"
      else ['%', "0123456789ABCDEF"[high], "0123456789ABCDEF"[low]]
  {
    EscapeAlone(c);
    assert c as int / 16 % 16 == high && c as int % 16 == low;
    HexDigits(high);
    HexDigits(low);
  }

  lemma {:induction false} EscapeOfAppend(s: string, t: string)
    ensures Escape(s + t) == Escape(s) + Escape(t)
  {
    if s == "" {
      assert s + t == t;
    } else {
      assert (s + t)[1..] == s[1..] + t;
      EscapeOfAppend(s[1..], t);
    }
  }

  predicate HasSeparator(s: string) {
    '&' in s || '=' in s || '#' in s || '?' in s || ';' in s
  }

  lemma {:induction false} EscapedHasNoSeparator(s: string)
    ensures !HasSeparator(Escape(s))
  {
    if s != "" {
      EscapedHasNoSeparator(s[1..]);
    }
  }

  /** The closure `addQuery` of `do`. */
  function AddQuery(target: string, key: string, value: string): string {
    if value == "" then target
    else target + (if '?' in target then "&" else "?") + key + "=" + Escape(value)
  }

  // ---------------------------------------------------------- the server side

  /** The first place of `c` in `s`, or |s|. */
  function Find(s: string, c: char): (i: nat)
    ensures i <= |s| && (forall j :: 0 <= j < i ==> s[j] != c)
    ensures i < |s| ==> s[i] == c
  {
    if s == "" || s[0] == c then 0 else 1 + Find(s[1..], c)
  }

  predicate HasFragment(url: string) {
    Find(url, '#') < |url|
  }

  function Before(s: string, c: char): string {
    s[..Find(s, c)]
  }

  function After(s: string, c: char): string {
    if Find(s, c) < |s| then s[Find(s, c) + 1..] else ""
  }

  function Split(s: string, c: char): seq<string>
    decreases |s|
  {
    if Find(s, c) < |s| then [Before(s, c)] + Split(After(s, c), c) else [s]
  }

  function Pair(piece: string): seq<(string, string)> {
    if piece == "" then []
    else
      match (Unescape(Before(piece, '=')), Unescape(After(piece, '=')))
      case (Some(k), Some(v)) => [(k, v)]
      case _ => []
  }

  function Pairs(pieces: seq<string>): seq<(string, string)> {
    if pieces == [] then [] else Pair(pieces[0]) + Pairs(pieces[1..])
  }

  /** The query parameters of a URL, in order: the fragment is cut off before the query is read. */
  function Params(url: string): seq<(string, string)> {
    Pairs(Split(After(Before(url, '#'), '?'), '&'))
  }

  lemma FindOfAppend(s: string, c: char, t: string)
    requires Find(s, c) < |s|
    ensures Find(s + t, c) == Find(s, c)
    ensures Before(s + t, c) == Before(s, c) && After(s + t, c) == After(s, c) + t
  {
    assert forall j :: 0 <= j < |s| ==> (s + t)[j] == s[j];
  }

  lemma FindOfJoin(s: string, c: char, t: string)
    requires c !in s
    ensures Find(s + [c] + t, c) == |s|
    ensures Before(s + [c] + t, c) == s && After(s + [c] + t, c) == t
  {
    var u := s + [c] + t;
    assert u[|s|] == c;
    assert forall j :: 0 <= j < |s| ==> u[j] == s[j];
  }

  lemma {:induction false} SplitOfAppend(s: string, c: char, piece: string)
    requires c !in piece
    ensures Split(s + [c] + piece, c) == Split(s, c) + [piece]
    decreases |s|
  {
    if Find(s, c) < |s| {
      Associates(s, [c], piece);
      FindOfAppend(s, c, [c] + piece);
      var rest := After(s, c);
      Associates(rest, [c], piece);
      SplitOfAppend(rest, c, piece);
      Associates([Before(s, c)], Split(rest, c), [piece]);
    } else {
      SplitWithoutSeparator(s, c);
      SplitWithoutSeparator(piece, c);
      FindOfJoin(s, c, piece);
    }
  }

  lemma SplitWithoutSeparator(s: string, c: char)
    ensures c !in s <==> Find(s, c) == |s|
    ensures c !in s ==> Split(s, c) == [s]
  {
  }

  lemma {:induction false} PairsOfAppend(pieces: seq<string>, piece: string)
    ensures Pairs(pieces + [piece]) == Pairs(pieces) + Pair(piece)
  {
    if pieces == [] {
      assert [] + [piece] == [piece];
      assert Pairs([piece]) == Pair(piece) + Pairs([]);
    } else {
      assert (pieces + [piece])[1..] == pieces[1..] + [piece];
      PairsOfAppend(pieces[1..], piece);
    }
  }

  lemma PairOfParameter(key: string, value: string)
    requires key != "" && Plain(key) && IsBytes(value)
    ensures Pair(key + "=" + Escape(value)) == [(key, value)]
  {
    assert '=' !in key;
    FindOfJoin(key, '=', Escape(value));
    UnescapeOfPlain(key);
    UnescapeOfEscape(value);
  }

  lemma FragmentHidesTheQuery(target: string, key: string, value: string)
    requires HasFragment(target)
    ensures Params(AddQuery(target, key, value)) == Params(target)
  {
    if value != "" {
      var sep := if '?' in target then "&" else "?";
      AddQueryShape(target, sep, key, value);
      Associates(target, sep, key + "=" + Escape(value));
      FindOfAppend(target, '#', sep + (key + "=" + Escape(value)));
    }
  }

  lemma AddQueryShape(target: string, sep: string, key: string, value: string)
    requires value != "" && sep == (if '?' in target then "&" else "?")
    ensures AddQuery(target, key, value) == target + sep + (key + "=" + Escape(value))
  {
  }

  lemma Associates<T>(a: seq<T>, b: seq<T>, c: seq<T>)
    ensures a + b + c == a + (b + c)
  {
  }

  lemma BeforeAbsent(s: string, c: char)
    requires c !in s
    ensures Before(s, c) == s && After(s, c) == ""
  {
  }

  lemma NoHash(s: string, t: string)
    requires !HasFragment(s) && !HasFragment(t)
    ensures !HasFragment(s + t)
  {
  }

  /** The query text of a URL without a fragment. */
  lemma QueryOf(url: string)
    requires !HasFragment(url)
    ensures Params(url) == Pairs(Split(After(url, '?'), '&'))
  {
    BeforeAbsent(url, '#');
  }

  lemma QueryGains(target: string, piece: string)
    requires !HasFragment(target) && !HasFragment(piece) && '&' !in piece
    ensures Params(target + (if '?' in target then "&" else "?") + piece) == Params(target) + Pair(piece)
  {
    var sep := if '?' in target then "&" else "?";
    var query := After(target, '?');
    NoHash(target, sep);
    NoHash(target + sep, piece);
    QueryOf(target);
    QueryOf(target + sep + piece);
    if '?' in target {
      Associates(target, sep, piece);
      FindOfAppend(target, '?', sep + piece);
      Associates(query, ['&'], piece);
      SplitOfAppend(query, '&', piece);
      PairsOfAppend(Split(query, '&'), piece);
    } else {
      FindOfJoin(target, '?', piece);
      assert Split(piece, '&') == [piece];
      PairsOfAppend([], piece);
      assert [] + [piece] == [piece];
      BeforeAbsent(target, '?');
      assert Split("", '&') == [""] && Pairs([""]) == Pair("") + Pairs([""][1..]);
    }
  }

  lemma PieceHasNoSeparator(key: string, value: string)
    requires Plain(key)
    ensures '&' !in key + "=" + Escape(value) && !HasFragment(key + "=" + Escape(value))
  {
    EscapedHasNoSeparator(value);
  }

  lemma AddQueryGains(target: string, key: string, value: string)
    requires key != "" && Plain(key) && IsBytes(value) && value != "" && !HasFragment(target)
    ensures Params(AddQuery(target, key, value)) == Params(target) + [(key, value)]
    ensures !HasFragment(AddQuery(target, key, value))
  {
    var piece := key + "=" + Escape(value);
    var sep := if '?' in target then "&" else "?";
    PieceHasNoSeparator(key, value);
    AddQueryShape(target, sep, key, value);
    QueryGains(target, piece);
    PairOfParameter(key, value);
    NoHash(target, sep);
    NoHash(target + sep, piece);
  }

  /**
   A target with one more parameter parses back to the parameters it had and that one, exactly when
   it holds no `#`: behind a fragment the server never sees the parameter. The text of the target itself
   stays, and an empty value adds nothing.
   */
  lemma AddQueryParsesBack(target: string, key: string, value: string)
    requires key != "" && Plain(key) && IsBytes(value) && value != ""
    ensures Params(AddQuery(target, key, value)) == Params(target) + [(key, value)] <==> !HasFragment(target)
    ensures target <= AddQuery(target, key, value) && AddQuery(target, key, "") == target
  {
    if HasFragment(target) {
      FragmentHidesTheQuery(target, key, value);
      assert |Params(target)| < |Params(target) + [(key, value)]|;
    } else {
      AddQueryGains(target, key, value);
    }
  }

  /** The target of `do`: the guard and the idempotency key when there are any. */
  function Target(url: string, ifMatch: string, key: string): string {
    AddQuery(AddQuery(url, "if_match", ifMatch), "idempotency_key", key)
  }

  function Optional(key: string, value: string): seq<(string, string)> {
    if value == "" then [] else [(key, value)]
  }

  /** The server reads both guarantees off the query next to the caller's own parameters. */
  lemma TargetCarriesBothGuards(url: string, ifMatch: string, key: string)
    requires IsBytes(ifMatch) && IsBytes(key) && !HasFragment(url)
    ensures Params(Target(url, ifMatch, key))
         == Params(url) + Optional("if_match", ifMatch) + Optional("idempotency_key", key)
  {
    if ifMatch != "" {
      AddQueryGains(url, "if_match", ifMatch);
    }
    if key != "" {
      AddQueryGains(AddQuery(url, "if_match", ifMatch), "idempotency_key", key);
    }
  }

  function Lookup(params: seq<(string, string)>, key: string): Option<string> {
    if params == [] then None
    else if params[0].0 == key then Some(params[0].1)
    else Lookup(params[1..], key)
  }

  lemma {:induction false} LookupOfAppend(a: seq<(string, string)>, b: seq<(string, string)>, key: string)
    ensures Lookup(a + b, key) == if Lookup(a, key).Some? then Lookup(a, key) else Lookup(b, key)
  {
    if a == [] {
      assert a + b == b;
    } else {
      assert (a + b)[1..] == a[1..] + b;
      LookupOfAppend(a[1..], b, key);
    }
  }

  const LIMIT: string := "limit"
  const PAGE_SIZE: string := "500"
  const CURSOR: string := "cursor"

  /** The target of one page of `GetList`, which composes it as `do` composes its own. */
  function PageTarget(path: string, next: string): string {
    AddQuery(AddQuery(path, LIMIT, PAGE_SIZE), CURSOR, next)
  }

  /** The cursor that the server reads off a target. */
  function CursorOf(target: string): Option<string> {
    Lookup(Params(target), CURSOR)
  }

  lemma GainedParameter(target: string, key: string, value: string, wanted: string)
    requires !HasFragment(target) && Lookup(Params(target), wanted).None?
    requires key != "" && Plain(key) && value != "" && IsBytes(value)
    ensures !HasFragment(AddQuery(target, key, value))
    ensures Lookup(Params(AddQuery(target, key, value)), wanted) == if key == wanted then Some(value) else None
  {
    AddQueryGains(target, key, value);
    LookupOfAppend(Params(target), [(key, value)], wanted);
    assert [(key, value)][1..] == [];
  }

  lemma SecondParameter(path: string, limit: string, size: string, key: string, value: string)
    requires !HasFragment(path) && Lookup(Params(path), key).None?
    requires limit != "" && Plain(limit) && size != "" && IsBytes(size) && limit != key
    requires key != "" && Plain(key) && IsBytes(value)
    ensures Lookup(Params(AddQuery(AddQuery(path, limit, size), key, value)), key)
         == if value == "" then None else Some(value)
  {
    GainedParameter(path, limit, size, key);
    if value != "" {
      GainedParameter(AddQuery(path, limit, size), key, value, key);
    }
  }

  lemma PageNamesArePlain()
    ensures LIMIT != "" && Plain(LIMIT) && PAGE_SIZE != "" && IsBytes(PAGE_SIZE)
    ensures CURSOR != "" && Plain(CURSOR) && LIMIT != CURSOR
  {
  }

  /** The server reads the cursor back as it handed it out, behind the path's own parameters and the page size. */
  lemma PageTargetCarriesTheCursor(path: string, next: string)
    requires !HasFragment(path) && CursorOf(path).None? && IsBytes(next)
    ensures CursorOf(PageTarget(path, next)) == if next == "" then None else Some(next)
    ensures Params(PageTarget(path, next)) == Params(path) + [("limit", "500")] + Optional("cursor", next)
  {
    PageNamesArePlain();
    AddQueryGains(path, LIMIT, PAGE_SIZE);
    if next != "" {
      AddQueryGains(AddQuery(path, LIMIT, PAGE_SIZE), CURSOR, next);
    }
    SecondParameter(path, LIMIT, PAGE_SIZE, CURSOR, next);
  }
}
