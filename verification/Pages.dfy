/** `Client.GetList`: cursor pagination with a bound on the number of pages. */
module Pages {
  import opened Wrappers
  import opened Query

  const MAX_PAGES := 1000

  /** One page as the client decodes it; an empty `next` is a missing X-Next-Cursor. */
  datatype Page<+T> = Page(items: seq<T>, next: string)

  /** The answer to the n-th request of the call, by its target. It may differ each time. */
  type Server<!T, !E> = (nat, string) -> Result<Page<T>, E>

  /** The same by the cursor that the target carries. */
  type Fetch<!T, !E> = (nat, string) -> Result<Page<T>, E>

  function Requests<T, E>(target: string -> string, server: Server<T, E>): Fetch<T, E> {
    (n: nat, next: string) => server(n, target(next))
  }

  function Targets(path: string): string -> string {
    (next: string) => PageTarget(path, next)
  }

  /** The pages from request `n` on, until one has no cursor or the bound is reached. */
  function Follow<T, E>(fetch: Fetch<T, E>, n: nat, next: string): Result<seq<T>, E>
    decreases MAX_PAGES - n
  {
    if n >= MAX_PAGES then Ok([])
    else
      match fetch(n, next)
      case Failed(e) => Failed(e)
      case Ok(page) =>
        if page.next == "" then Ok(page.items)
        else Prepend(page.items, Follow(fetch, n + 1, page.next))
  }

  function Prepend<T, E>(items: seq<T>, rest: Result<seq<T>, E>): Result<seq<T>, E> {
    match rest
    case Failed(e) => Failed(e)
    case Ok(more) => Ok(items + more)
  }

  lemma PrependTwice<T, E>(a: seq<T>, b: seq<T>, rest: Result<seq<T>, E>)
    ensures Prepend(a, Prepend(b, rest)) == Prepend(a + b, rest)
  {
    if rest.Ok? {
      assert a + (b + rest.value) == a + b + rest.value;
    }
  }

  method GetList<T, E>(path: string, server: Server<T, E>) returns (result: Result<seq<T>, E>, fetched: nat)
    ensures result == Follow(Requests(Targets(path), server), 0, "")
    ensures 1 <= fetched <= MAX_PAGES
  {
    result, fetched := Collect(Targets(path), server);
  }

  /** The loop of `GetList`, for any way to write a cursor into a target. */
  method Collect<T, E>(target: string -> string, server: Server<T, E>) returns (result: Result<seq<T>, E>, fetched: nat)
    ensures result == Follow(Requests(target, server), 0, "")
    ensures 1 <= fetched <= MAX_PAGES
  {
    var all: seq<T>, next: string := [], "";
    ghost var fetch := Requests(target, server);
    ghost var final := Follow(fetch, 0, "");
    fetched := 0;
    assert final == Prepend([], final) by {
      assert final.Ok? ==> [] + final.value == final.value;
    }
    while fetched < MAX_PAGES
      invariant fetched <= MAX_PAGES
      invariant final == Prepend(all, Follow(fetch, fetched, next))
    {
      var answer := server(fetched, target(next));
      assert answer == fetch(fetched, next);
      fetched := fetched + 1;
      match answer {
        case Failed(e) => return Failed(e), fetched;
        case Ok(page) =>
          if page.next == "" {
            return Ok(all + page.items), fetched;
          }
          PrependTwice(all, page.items, Follow(fetch, fetched, page.next));
          all := all + page.items;
          next := page.next;
      }
    }
    assert all + [] == all;
    result := Ok(all);
  }

  // ------------------------------------------------- a server with one list to page

  function Flatten<T>(pages: seq<seq<T>>): seq<T> {
    if pages == [] then [] else pages[0] + Flatten(pages[1..])
  }

  /** Where the cursor points: the page after the one that handed it out. */
  function IndexOf(cursors: seq<string>, c: string): (i: nat)
    ensures i <= |cursors| && (i < |cursors| ==> cursors[i] == c)
    ensures i == |cursors| ==> c !in cursors
  {
    if cursors == [] || cursors[0] == c then 0 else 1 + IndexOf(cursors[1..], c)
  }

  predicate Cut<T>(pages: seq<seq<T>>, cursors: seq<string>) {
    && |pages| == |cursors| + 1
    && (forall i :: 0 <= i < |cursors| ==> cursors[i] != "" && IsBytes(cursors[i]))
    && (forall i, j :: 0 <= i < j < |cursors| ==> cursors[i] != cursors[j])
  }

  function PageAt<T, E>(pages: seq<seq<T>>, cursors: seq<string>, unknown: E,
                        cursor: Option<string>): Result<Page<T>, E>
    requires Cut(pages, cursors)
  {
    var k := match cursor
             case None => 0
             case Some(c) => IndexOf(cursors, c) + 1;
    if k >= |pages| then Failed(unknown)
    else Ok(Page(pages[k], if k < |cursors| then cursors[k] else ""))
  }

  /** A server that cut its list into `pages` and reads the cursor off the URL with `cursorOf`. */
  function Serve<T, E>(pages: seq<seq<T>>, cursors: seq<string>, unknown: E,
                       cursorOf: string -> Option<string>): Server<T, E>
    requires Cut(pages, cursors)
  {
    (n: nat, target: string) => PageAt(pages, cursors, unknown, cursorOf(target))
  }

  /** Targets and cursor reading fit together. */
  ghost predicate Carries(target: string -> string, cursorOf: string -> Option<string>) {
    forall next: string :: IsBytes(next) ==> cursorOf(target(next)) == if next == "" then None else Some(next)
  }

  lemma {:induction false} IndexOfMember(cursors: seq<string>, i: nat)
    requires i < |cursors|
    requires forall a, b :: 0 <= a < b < |cursors| ==> cursors[a] != cursors[b]
    ensures IndexOf(cursors, cursors[i]) == i
  {
    if i > 0 {
      IndexOfMember(cursors[1..], i - 1);
    }
  }

  function CursorBefore(cursors: seq<string>, k: nat): string
    requires k <= |cursors|
  {
    if k == 0 then "" else cursors[k - 1]
  }

  /** The request that carries the k-th cursor gets the k-th page. */
  lemma ServedPage<T, E>(pages: seq<seq<T>>, cursors: seq<string>, unknown: E, k: nat)
    requires Cut(pages, cursors) && k < |pages|
    ensures PageAt(pages, cursors, unknown, if k == 0 then None else Some(cursors[k - 1]))
         == Ok(Page(pages[k], if k < |cursors| then cursors[k] else ""))
  {
    if k > 0 {
      IndexOfMember(cursors, k - 1);
    }
  }

  /** The fetch gives page k, with the cursor of the next page, for the cursor that page k - 1 handed out. */
  ghost predicate Delivers<T(!new), E(!new)>(fetch: Fetch<T, E>, pages: seq<seq<T>>, cursors: seq<string>) {
    && Cut(pages, cursors)
    && forall n: nat, k: nat :: k < |pages| ==>
         fetch(n, CursorBefore(cursors, k)) == Ok(Page(pages[k], if k < |cursors| then cursors[k] else ""))
  }

  lemma ServerDelivers<T(!new), E(!new)>(target: string -> string, cursorOf: string -> Option<string>,
                                         pages: seq<seq<T>>, cursors: seq<string>, unknown: E)
    requires Cut(pages, cursors) && Carries(target, cursorOf)
    ensures Delivers(Requests(target, Serve(pages, cursors, unknown, cursorOf)), pages, cursors)
  {
    forall k: nat | k < |pages|
      ensures PageAt(pages, cursors, unknown, cursorOf(target(CursorBefore(cursors, k))))
           == Ok(Page(pages[k], if k < |cursors| then cursors[k] else ""))
    {
      ServedPage(pages, cursors, unknown, k);
    }
  }

  lemma FollowStep<T, E>(fetch: Fetch<T, E>, n: nat, next: string, page: Page<T>)
    requires n < MAX_PAGES && fetch(n, next) == Ok(page)
    ensures Follow(fetch, n, next)
         == if page.next == "" then Ok(page.items) else Prepend(page.items, Follow(fetch, n + 1, page.next))
  {
  }

  lemma FlattenFrom<T>(pages: seq<seq<T>>, k: nat, last: nat)
    requires k < last <= |pages|
    ensures Flatten(pages[k..last]) == pages[k] + Flatten(pages[k + 1..last])
  {
    assert pages[k..last][1..] == pages[k + 1..last];
  }

  lemma {:induction false} FollowServed<T(!new), E(!new)>(fetch: Fetch<T, E>, pages: seq<seq<T>>, cursors: seq<string>,
                                          k: nat, last: nat)
    requires Delivers(fetch, pages, cursors)
    requires k < |pages| && last == (if |pages| <= MAX_PAGES then |pages| else MAX_PAGES) && k <= last
    ensures Follow(fetch, k, CursorBefore(cursors, k)) == Ok(Flatten(pages[k..last]))
    decreases |pages| - k
  {
    if k < MAX_PAGES {
      FlattenFrom(pages, k, last);
      FollowStep(fetch, k, CursorBefore(cursors, k), Page(pages[k], if k < |cursors| then cursors[k] else ""));
      if k < |cursors| {
        FollowServed(fetch, pages, cursors, k + 1, last);
      } else {
        assert pages[k] + [] == pages[k];
      }
    }
  }

  lemma FollowDelivered<T(!new), E(!new)>(fetch: Fetch<T, E>, pages: seq<seq<T>>, cursors: seq<string>)
    requires Delivers(fetch, pages, cursors)
    ensures Follow(fetch, 0, "") == Ok(Flatten(if |pages| <= MAX_PAGES then pages else pages[..MAX_PAGES]))
  {
    var last := if |pages| <= MAX_PAGES then |pages| else MAX_PAGES;
    FollowServed(fetch, pages, cursors, 0, last);
    assert pages[0..last] == if |pages| <= MAX_PAGES then pages else pages[..MAX_PAGES];
  }

  lemma TargetsCarryTheCursor(path: string)
    requires !HasFragment(path) && CursorOf(path).None?
    ensures Carries(Targets(path), CursorOf)
  {
    forall next: string | IsBytes(next)
      ensures CursorOf(Targets(path)(next)) == if next == "" then None else Some(next)
    {
      PageTargetCarriesTheCursor(path, next);
    }
  }

  /**
   However the server cuts its list into pages, the call returns exactly that list in order when
   there are at most 1000 pages, and the first 1000 pages otherwise.
   */
  lemma GetListIsComplete<T(!new), E(!new)>(path: string, pages: seq<seq<T>>, cursors: seq<string>, unknown: E)
    requires Cut(pages, cursors) && !HasFragment(path) && CursorOf(path).None?
    ensures Follow(Requests(Targets(path), Serve(pages, cursors, unknown, CursorOf)), 0, "")
         == Ok(Flatten(if |pages| <= MAX_PAGES then pages else pages[..MAX_PAGES]))
  {
    TargetsCarryTheCursor(path);
    ServerDelivers(Targets(path), CursorOf, pages, cursors, unknown);
    FollowDelivered(Requests(Targets(path), Serve(pages, cursors, unknown, CursorOf)), pages, cursors);
  }

  /** The server answered with `pages`, and offered a next page every time. */
  ghost predicate Offers<T(!new), E(!new)>(fetch: Fetch<T, E>, cursors: seq<string>, pages: seq<seq<T>>) {
    && |cursors| == |pages| + 1 && |pages| <= MAX_PAGES
    && cursors[0] == ""
    && forall k: nat {:trigger pages[k]} :: k < |pages| ==>
        cursors[k + 1] != "" && fetch(k, cursors[k]) == Ok(Page(pages[k], cursors[k + 1]))
  }

  lemma {:induction false} FollowOffers<T(!new), E(!new)>(fetch: Fetch<T, E>, cursors: seq<string>, pages: seq<seq<T>>,
                                          k: nat)
    requires Offers(fetch, cursors, pages) && k <= |pages|
    ensures Follow(fetch, k, cursors[k])
         == Prepend(Flatten(pages[k..]), Follow(fetch, |pages|, cursors[|pages|]))
    decreases |pages| - k
  {
    var rest := Follow(fetch, |pages|, cursors[|pages|]);
    if k < |pages| {
      FollowOffers(fetch, cursors, pages, k + 1);
      FollowStep(fetch, k, cursors[k], Page(pages[k], cursors[k + 1]));
      PrependTwice(pages[k], Flatten(pages[k + 1..]), rest);
      assert pages[k..][1..] == pages[k + 1..];
    } else {
      assert rest.Ok? ==> [] + rest.value == rest.value;
    }
  }

  /**
   Whatever pages came before, the next answer decides: a failure is the result of the whole call, never
   the pages so far, and a page without a cursor completes the list.
   */
  lemma NextAnswerDecides<T(!new), E(!new)>(fetch: Fetch<T, E>, cursors: seq<string>, pages: seq<seq<T>>)
    requires Offers(fetch, cursors, pages) && |pages| < MAX_PAGES
    ensures match fetch(|pages|, cursors[|pages|])
            case Failed(e) => Follow(fetch, 0, "") == Failed(e)
            case Ok(page) => page.next == "" ==> Follow(fetch, 0, "") == Ok(Flatten(pages) + page.items)
  {
    FollowOffers(fetch, cursors, pages, 0);
    assert pages[0..] == pages;
  }

  /** A server that never stops offering pages is cut off: the result is its first 1000 pages. */
  lemma EndlessServerIsCutOff<T(!new), E(!new)>(fetch: Fetch<T, E>, cursors: seq<string>, pages: seq<seq<T>>)
    requires Offers(fetch, cursors, pages) && |pages| == MAX_PAGES
    ensures Follow(fetch, 0, "") == Ok(Flatten(pages))
  {
    FollowOffers(fetch, cursors, pages, 0);
    assert pages[0..] == pages && Flatten(pages) + [] == Flatten(pages);
  }
}
