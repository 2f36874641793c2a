/** Graph collections: pages, the link to the next one, and following the links to the end. */
module GraphPaging {
  import opened Text
  import opened Percent
  import opened QueryStrings
  import opened GraphUrls
  import opened Users

  const DEFAULT_TOP := 100
  const MAX_TOP := 999
  const TOP := "$top"
  const SKIP := "$skiptoken"

  /** JavaScript's `Number(s)` where it is an integer. */
  type Numeral = string -> Option<int>

  /** Decimal digits, as a number is put into a string. */
  function Dec(n: nat): string {
    if n < 10 then [('0' as int + n) as char] else Dec(n / 10) + [('0' as int + n % 10) as char]
  }

  /** `Number` reads back the decimal digits of the offsets below `total`. */
  ghost predicate ReadsOffsets(num: Numeral, total: nat) {
    forall n: nat | n < total :: num(Dec(n)) == Some(n)
  }

  function Integer(raw: Option<string>, num: Numeral): Option<int> {
    if raw.Some? then num(raw.value) else None
  }

  function ParseTop(query: Query, num: Numeral): (top: nat)
    ensures 1 <= top <= MAX_TOP
    ensures Integer(First(query, TOP), num).None? ==> top == DEFAULT_TOP
    ensures forall n | Integer(First(query, TOP), num) == Some(n) ::
              top == if n < 1 then DEFAULT_TOP else if n <= MAX_TOP then n else MAX_TOP
  {
    match Integer(First(query, TOP), num)
    case Some(n) => if n < 1 then DEFAULT_TOP else if n > MAX_TOP then MAX_TOP else n
    case None => DEFAULT_TOP
  }

  /** The offset is the integer given, if it is one that is not negative, and otherwise zero. */
  lemma SkipMeans(query: Query, num: Numeral)
    ensures var given := Integer(First(query, SKIP), num);
            if given.Some? && given.value >= 0 then Some(ParseSkip(query, num) as int) == given
            else ParseSkip(query, num) == 0
  {}

  function ParseSkip(query: Query, num: Numeral): nat {
    match Integer(First(query, SKIP), num)
    case Some(n) => if n < 0 then 0 else n
    case None => 0
  }

  function QueryOf(url: string): Query {
    var path := PathOnly(url);
    if |path| < |url| then Parse(url[|path| + 1..]) else []
  }

  // --- the next link ------------------------------------------------------------------------

  /** Every parameter of the caller but the offset. */
  function Others(query: Query): Query {
    if query == [] then []
    else (if query[0].key == SKIP then [] else [query[0]]) + Others(query[1..])
  }

  lemma {:induction false} PiecesConcat(a: seq<(string, string)>, b: seq<(string, string)>)
    ensures Pieces(a + b) == Pieces(a) + Pieces(b)
  {
    if a == [] {
      assert a + b == b;
    } else {
      assert (a + b)[1..] == a[1..] + b;
      PiecesConcat(a[1..], b);
    }
  }

  /** The pieces of every parameter but the offset. */
  function Kept(query: Query): seq<string> { Pieces(Flatten(Others(query))) }

  /** The link keeps every other parameter and sets the offset. */
  function NextLink(o: Origins, path: string, query: Query, nextSkip: nat): string {
    PublicUrl(o, path) + "?" + JoinPieces(Kept(query) + [SKIP + "=" + Dec(nextSkip)])
  }

  lemma KeptStep(query: Query, i: nat)
    requires i < |query|
    ensures var e := query[i];
            Kept(query[i..])
            == (if e.key == SKIP then [] else Pieces(ValuePairs(e.key, e.values))) + Kept(query[i + 1..])
  {
    var rest := query[i + 1..];
    assert query[i..][0] == query[i] && query[i..][1..] == rest;
    assert ([query[i]] + Others(rest))[1..] == Others(rest) == [] + Others(rest);
    PiecesConcat(ValuePairs(query[i].key, query[i].values), Flatten(Others(rest)));
  }

  lemma ValueStep(key: string, values: seq<string>, j: nat)
    requires j < |values|
    ensures Pieces(ValuePairs(key, values[j..])) == [Piece(key, values[j])] + Pieces(ValuePairs(key, values[j + 1..]))
  {
    assert values[j..][0] == values[j] && values[j..][1..] == values[j + 1..];
  }

  /** The inner loop: one part for each value of a key. */
  method PushValues(parts: seq<string>, key: string, values: seq<string>) returns (pushed: seq<string>)
    ensures pushed == parts + Pieces(ValuePairs(key, values))
  {
    pushed := parts;
    assert values[0..] == values;
    for j := 0 to |values|
      invariant pushed + Pieces(ValuePairs(key, values[j..])) == parts + Pieces(ValuePairs(key, values))
    {
      ValueStep(key, values, j);
      pushed := pushed + [key + "=" + Encode(values[j])];
    }
  }

  /** The outer loop: every key but the offset's. */
  method PushParts(query: Query) returns (parts: seq<string>)
    ensures parts == Kept(query)
  {
    parts := [];
    assert query[0..] == query;
    for i := 0 to |query|
      invariant parts + Kept(query[i..]) == Kept(query)
    {
      KeptStep(query, i);
      if query[i].key != SKIP {
        parts := PushValues(parts, query[i].key, query[i].values);
      }
    }
  }

  method BuildNextLink(o: Origins, path: string, query: Query, nextSkip: nat) returns (link: string)
    ensures link == NextLink(o, path, query, nextSkip)
  {
    var parts := PushParts(query);
    parts := parts + [SKIP + "=" + Dec(nextSkip)];
    link := PublicUrl(o, path) + "?" + JoinPieces(parts);
  }

  datatype Page<T> = Page(value: seq<T>, nextLink: Option<string>)

  /** The answer to a collection request; `items` is the collection in its order. */
  function PageAt<T>(o: Origins, url: string, items: seq<T>, num: Numeral): Page<T> {
    var query := QueryOf(url);
    var top, skip := ParseTop(query, num), ParseSkip(query, num);
    Page(Limit(items, top, skip),
         if skip + top < |items| then Some(NextLink(o, PathOnly(url), query, skip + top)) else None)
  }

  method SendCollection<T>(o: Origins, url: string, items: seq<T>, num: Numeral) returns (page: Page<T>)
    ensures page == PageAt(o, url, items, num)
  {
    var query := QueryOf(url);
    var top, skip := ParseTop(query, num), ParseSkip(query, num);
    page := Page(Limit(items, top, skip), None);
    if skip + top < |items| {
      var link := BuildNextLink(o, PathOnly(url), query, skip + top);
      page := page.(nextLink := Some(link));
    }
  }

  // --- the link read back -------------------------------------------------------------------

  /** The parameters of the next request. */
  function NextQuery(query: Query, nextSkip: nat): Query { Others(query) + [Entry(SKIP, [Dec(nextSkip)])] }

  /** The number some digits spell. */
  function Spelled(digits: string): int {
    if digits == "" then 0
    else 10 * Spelled(digits[..|digits| - 1]) + (digits[|digits| - 1] as int - '0' as int)
  }

  /** The digits written for a number spell it. */
  lemma {:induction false} DecSpells(n: nat)
    ensures Spelled(Dec(n)) == n
  {
    if n < 10 {
      assert Dec(n)[..0] == "";
    } else {
      DecSpells(n / 10);
      assert Dec(n)[..|Dec(n)| - 1] == Dec(n / 10);
    }
  }

  lemma {:induction false} DecIsDigits(n: nat)
    ensures forall c <- Dec(n) :: '0' <= c <= '9'
  {
    if n >= 10 {
      DecIsDigits(n / 10);
    }
  }

  lemma {:induction false} UnreservedIsKept(s: string)
    requires forall c <- s :: Unreserved(c)
    ensures Encode(s) == s
  {
    if s != "" {
      assert s[0] in s && forall c <- s[1..] :: c in s;
      UnreservedIsKept(s[1..]);
    }
  }

  lemma OnePiece(key: string, value: string)
    ensures Pieces(Flatten([Entry(key, [value])])) == [key + "=" + Encode(value)]
  {
    var query := [Entry(key, [value])];
    assert query[1..] == [] && [value][1..] == [];
    assert ValuePairs(key, [value]) == [(key, value)];
    assert Flatten(query) == [(key, value)];
    assert [(key, value)][1..] == [];
  }

  /** The query of the link writes the next request's parameters out, value by value. */
  lemma LinkQuery(query: Query, nextSkip: nat)
    ensures Kept(query) + [SKIP + "=" + Dec(nextSkip)] == Pieces(Flatten(NextQuery(query, nextSkip)))
  {
    var digits := Dec(nextSkip);
    DecIsDigits(nextSkip);
    UnreservedIsKept(digits);
    var last := [Entry(SKIP, [digits])];
    OnePiece(SKIP, digits);
    FlattenConcat(Others(query), last);
    PiecesConcat(Flatten(Others(query)), Flatten(last));
  }

  lemma OthersOfFirst(e: Entry, rest: Query)
    ensures Others([e] + rest) == (if e.key == SKIP then [] else [e]) + Others(rest)
  {
    assert ([e] + rest)[1..] == rest;
  }

  /** The link keeps every parameter but the offset, in order: part by part, and each part whole or not at all. */
  lemma {:induction false} OthersByPart(a: Query, e: Entry, b: Query)
    ensures Others(a + ([e] + b)) == Others(a) + ((if e.key == SKIP then [] else [e]) + Others(b))
  {
    if a == [] {
      assert a + ([e] + b) == [e] + b;
      OthersOfFirst(e, b);
    } else {
      var rest := a[1..] + ([e] + b);
      assert a + ([e] + b) == [a[0]] + rest && a == [a[0]] + a[1..];
      OthersOfFirst(a[0], rest);
      OthersOfFirst(a[0], a[1..]);
      OthersByPart(a[1..], e, b);
    }
  }

  lemma {:induction false} OthersAreSome(query: Query)
    ensures forall e <- Others(query) :: e in query && e.key != SKIP
  {
    if query != [] {
      OthersAreSome(query[1..]);
    }
  }

  lemma {:induction false} OthersKeepTop(query: Query, e: Entry)
    requires e.key != TOP
    ensures First(Others(query) + [e], TOP) == First(query, TOP)
  {
    if query != [] {
      OthersKeepTop(query[1..], e);
      assert SKIP[1] != TOP[1];
      if query[0].key != SKIP {
        assert (Others(query) + [e])[1..] == Others(query[1..]) + [e];
      } else {
        assert Others(query) == Others(query[1..]);
      }
    }
  }

  lemma {:induction false} LastIsFirst(query: Query, e: Entry)
    requires e.values != [] && forall d <- query :: d.key != e.key
    ensures First(query + [e], e.key) == Some(e.values[0])
  {
    if query != [] {
      assert query[0] in query && forall d <- query[1..] :: d in query;
      LastIsFirst(query[1..], e);
      assert (query + [e])[1..] == query[1..] + [e];
    }
  }

  lemma {:induction false} OthersAreGrouped(query: Query)
    requires Grouped(query)
    ensures Grouped(Others(query))
  {
    if query != [] {
      assert forall i | 0 <= i < |query| - 1 :: query[1..][i] == query[i + 1];
      OthersAreGrouped(query[1..]);
      OthersAreSome(query[1..]);
      var rest := Others(query[1..]);
      forall i | 0 <= i < |rest| ensures rest[i].key != query[0].key {
        assert rest[i] in query[1..];
      }
    }
  }

  lemma GroupedWithLast(query: Query, last: Entry)
    requires Grouped(query) && last.values != [] && forall d <- query :: d.key != last.key
    ensures Grouped(query + [last])
  {
    var all := query + [last];
    forall i, j | 0 <= i < j < |all| ensures all[i].key != all[j].key {
      assert all[i] == query[i] && query[i] in query;
    }
  }

  lemma NextIsGrouped(query: Query, nextSkip: nat)
    requires Grouped(query)
    ensures Grouped(NextQuery(query, nextSkip))
  {
    OthersAreGrouped(query);
    OthersAreSome(query);
    GroupedWithLast(Others(query), Entry(SKIP, [Dec(nextSkip)]));
  }

  lemma SkipSurvives()
    ensures Survives(SKIP)
  {
    var key := SKIP;
    assert key == ['$', 's', 'k', 'i', 'p', 't', 'o', 'k', 'e', 'n'];
    assert forall c <- key :: c == '$' || 'a' <= c <= 'z';
    PlainDecodes(key);
  }

  /** The offset's own key survives, so the kept keys decide. */
  lemma NextSurvives(query: Query, nextSkip: nat)
    ensures SurvivingQuery(NextQuery(query, nextSkip)) <==> SurvivingQuery(Others(query))
  {
    var others, next := Others(query), NextQuery(query, nextSkip);
    SkipSurvives();
    assert forall i | 0 <= i < |others| :: next[i] == others[i];
    assert next[|others|].key == SKIP;
  }

  /** Page size and offset of the next request: the size is kept, the offset is the one in the link. */
  lemma NextParameters(query: Query, nextSkip: nat, total: nat, num: Numeral)
    requires nextSkip < total && ReadsOffsets(num, total)
    ensures ParseTop(NextQuery(query, nextSkip), num) == ParseTop(query, num)
    ensures ParseSkip(NextQuery(query, nextSkip), num) == nextSkip
  {
    var last := Entry(SKIP, [Dec(nextSkip)]);
    OthersAreSome(query);
    assert SKIP[1] != TOP[1];
    OthersKeepTop(query, last);
    LastIsFirst(Others(query), last);
  }

  // --- following the links ------------------------------------------------------------------

  /** The deployment serves its published Graph URLs, and the header is one a client sends to the Graph origin. */
  ghost predicate Deployed(o: Origins, header: string) {
    && WellFormed(o.login) && WellFormed(o.portal) && WellFormed(o.graph)
    && ServesGraph(o) && Addresses(header, o.graph)
  }

  /** A request, as the handler sees it, for the Graph route `path`, the keys it keeps for the next link surviving. */
  ghost predicate Request(path: string, url: string) {
    GraphRoute(path) && PathOnly(url) == "/graph" + path && SurvivingQuery(Others(QueryOf(url)))
  }

  /** The request the handler sees when a client follows a link. */
  function Follow(o: Origins, header: string, link: string): string { RewriteUrl(o, RequestTarget(link), header) }

  lemma QueryIsGrouped(url: string)
    ensures Grouped(QueryOf(url))
  {
    var path := PathOnly(url);
    if |path| < |url| {
      AddAllGroups([], Pairs(url[|path| + 1..]));
    }
  }

  /** What the link's query writes out. */
  function LinkText(query: Query, nextSkip: nat): string {
    JoinPieces(Pieces(Flatten(NextQuery(query, nextSkip))))
  }

  lemma LinkShape(o: Origins, path: string, query: Query, nextSkip: nat)
    ensures NextLink(o, path, query, nextSkip) == PublicUrl(o, path) + ("?" + LinkText(query, nextSkip))
  {
    LinkQuery(query, nextSkip);
  }

  lemma CutAfterRoute(route: string, qs: string)
    requires '#' !in route
    ensures UpTo(route + ("?" + qs), '#') == route + ("?" + UpTo(qs, '#'))
  {
    UpToLocal(route, '#', "?" + qs);
    UpToLocal("?", '#', qs);
  }

  lemma CutTarget(o: Origins, path: string, qs: string)
    requires WellFormed(o.graph) && GraphRoute(path)
    ensures RequestTarget(PublicUrl(o, "/graph" + path) + ("?" + qs))
            == Suffix(o.graph) + (RouteOf(o, path) + ("?" + UpTo(qs, '#')))
  {
    NoHash(o, path);
    PublishedTargetCut(o, path, "?" + qs);
    CutAfterRoute(RouteOf(o, path), qs);
  }

  lemma NoHash(o: Origins, path: string)
    requires GraphRoute(path)
    ensures '#' !in RouteOf(o, path)
  {
    var graph := "/graph";
    assert '#' !in graph;
  }

  /** A client sends the link's query up to its first hash. */
  lemma LinkIsCut(o: Origins, path: string, qs: string)
    requires WellFormed(o.graph) && GraphRoute(path)
    ensures RequestTarget(PublicUrl(o, "/graph" + path) + ("?" + qs))
            == RequestTarget(PublicUrl(o, "/graph" + path) + ("?" + UpTo(qs, '#')))
  {
    var cut := UpTo(qs, '#');
    NothingToCut(cut);
    CutTarget(o, path, qs);
    CutTarget(o, path, cut);
  }

  /** The handler's view of a registered URL with a query. */
  lemma QueryOfUrl(url: string, registered: string, qs: string)
    requires url == registered + ("?" + qs) && PathOnly(url) == registered
    ensures QueryOf(url) == Parse(qs)
  {
    assert url[|registered| + 1..] == qs;
  }

  /**
   * Following a next link reaches the same route, let through by the guard; and with the parameters the link was
   * built from exactly when every kept key survives.
   */
  lemma FollowedLink(o: Origins, header: string, path: string, query: Query, nextSkip: nat)
    requires Deployed(o, header) && GraphRoute(path) && Grouped(query)
    ensures var next := Follow(o, header, NextLink(o, "/graph" + path, query, nextSkip));
            && PathOnly(next) == "/graph" + path && Allowed(o, header, true, next)
            && (QueryOf(next) == NextQuery(query, nextSkip) <==> SurvivingQuery(Others(query)))
  {
    var qs := LinkText(query, nextSkip);
    var cut := UpTo(qs, '#');
    LinkShape(o, "/graph" + path, query, nextSkip);
    LinkIsCut(o, path, qs);
    assert QueryPart("?" + cut);
    PublishedIsFollowed(o, path, "?" + cut, header);
    QueryOfUrl("/graph" + path + ("?" + cut), "/graph" + path, cut);
    NextIsGrouped(query, nextSkip);
    NextSurvives(query, nextSkip);
    QueryArrivesExactly(NextQuery(query, nextSkip));
  }

  /** What is kept is kept again by the next link. */
  lemma {:induction false} OthersOfOthers(query: Query, e: Entry)
    requires e.key == SKIP
    ensures Others(Others(query) + [e]) == Others(query)
  {
    if query == [] {
      assert [] + [e] == [e] && Others([e]) == [] + Others([e][1..]);
    } else if query[0].key != SKIP {
      var all := Others(query) + [e];
      assert all[0] == query[0] && all[1..] == Others(query[1..]) + [e];
      OthersOfOthers(query[1..], e);
    } else {
      assert Others(query) == Others(query[1..]);
      OthersOfOthers(query[1..], e);
    }
  }

  /** The next request, for the parameters of this one and the offset its page ended at. */
  lemma NextOf(o: Origins, header: string, path: string, query: Query, nextSkip: nat, total: nat, num: Numeral)
    requires Deployed(o, header) && GraphRoute(path) && Grouped(query) && SurvivingQuery(Others(query))
    requires nextSkip < total && ReadsOffsets(num, total)
    ensures var next := Follow(o, header, NextLink(o, "/graph" + path, query, nextSkip));
            && Request(path, next) && Allowed(o, header, true, next)
            && ParseTop(QueryOf(next), num) == ParseTop(query, num) && ParseSkip(QueryOf(next), num) == nextSkip
  {
    NextParameters(query, nextSkip, total, num);
    FollowedLink(o, header, path, query, nextSkip);
    OthersOfOthers(query, Entry(SKIP, [Dec(nextSkip)]));
  }

  /** The next request keeps route and page size and starts where this page ended. */
  lemma NextRequest<T>(o: Origins, header: string, path: string, url: string, items: seq<T>, num: Numeral)
    requires Deployed(o, header) && Request(path, url) && ReadsOffsets(num, |items|)
    requires PageAt(o, url, items, num).nextLink.Some?
    ensures var next := Follow(o, header, PageAt(o, url, items, num).nextLink.value);
            && Request(path, next) && Allowed(o, header, true, next)
            && ParseTop(QueryOf(next), num) == ParseTop(QueryOf(url), num)
            && ParseSkip(QueryOf(next), num) == ParseSkip(QueryOf(url), num) + ParseTop(QueryOf(url), num)
  {
    var query := QueryOf(url);
    var nextSkip := ParseSkip(query, num) + ParseTop(query, num);
    QueryIsGrouped(url);
    NextOf(o, header, path, query, nextSkip, |items|, num);
  }

  // --- a client that follows the links ------------------------------------------------------

  /** A server of pages as a client meets it: the requests it knows, what each returns, and how a link is followed. */
  datatype Server<!T> = Server(
    items: seq<T>,
    knows: string -> bool,
    page: string -> Page<T>,
    follow: string -> string,
    top: string -> nat,
    skip: string -> nat)
  {
    /** Each page is a slice, and its link leads to the slice after it with the same size. */
    ghost predicate SoundAt(url: string) {
      && top(url) >= 1
      && page(url).value == Limit(items, top(url), skip(url))
      && (page(url).nextLink.Some? <==> skip(url) + top(url) < |items|)
      && (page(url).nextLink.Some? ==>
            var next := follow(page(url).nextLink.value);
            knows(next) && top(next) == top(url) && skip(next) == skip(url) + top(url))
    }

    ghost predicate Sound() { forall url | knows(url) :: SoundAt(url) }

    /** Everything a client collects that follows the links until there is none. */
    ghost function Crawl(url: string): seq<T>
      requires Sound() && knows(url)
      decreases |items| - skip(url)
    {
      assert SoundAt(url);
      match page(url).nextLink
      case None => page(url).value
      case Some(link) => page(url).value + Crawl(follow(link))
    }

    /** Every link leads where it should, and a client that starts at `url` collects exactly `all`. */
    ghost predicate Yields(url: string, all: seq<T>) { Sound() && knows(url) && Crawl(url) == all }

    lemma {:induction false} CrawlIsTheRest(url: string)
      requires Sound() && knows(url)
      ensures Crawl(url) == if skip(url) <= |items| then items[skip(url)..] else []
      decreases |items| - skip(url)
    {
      assert SoundAt(url);
      var from, to := skip(url), skip(url) + top(url);
      if to < |items| {
        CrawlIsTheRest(follow(page(url).nextLink.value));
        assert items[from..to] + items[to..] == items[from..];
      }
    }
  }

  /** A Graph collection of a deployment, as its clients meet it. */
  ghost function Collection<T>(o: Origins, header: string, path: string, items: seq<T>, num: Numeral): Server<T> {
    Server(items,
           url => Request(path, url),
           url => PageAt(o, url, items, num),
           link => Follow(o, header, link),
           url => ParseTop(QueryOf(url), num),
           url => ParseSkip(QueryOf(url), num))
  }

  /** A page in the handler's own terms: a slice, and a link to the slice after it. */
  ghost predicate PageIsSound<T>(o: Origins, header: string, path: string, url: string, items: seq<T>, num: Numeral) {
    var page := PageAt(o, url, items, num);
    var top, skip := ParseTop(QueryOf(url), num), ParseSkip(QueryOf(url), num);
    && page.value == Limit(items, top, skip)
    && (page.nextLink.Some? <==> skip + top < |items|)
    && (page.nextLink.Some? ==>
          var next := Follow(o, header, page.nextLink.value);
          Request(path, next) && ParseTop(QueryOf(next), num) == top && ParseSkip(QueryOf(next), num) == skip + top)
  }

  lemma PagesAreSound<T>(o: Origins, header: string, path: string, url: string, items: seq<T>, num: Numeral)
    requires Deployed(o, header) && Request(path, url) && ReadsOffsets(num, |items|)
    ensures PageIsSound(o, header, path, url, items, num)
  {
    if PageAt(o, url, items, num).nextLink.Some? {
      NextRequest(o, header, path, url, items, num);
    }
  }

  lemma SoundPage<T>(o: Origins, header: string, path: string, url: string, items: seq<T>, num: Numeral)
    requires PageIsSound(o, header, path, url, items, num)
    ensures Collection(o, header, path, items, num).SoundAt(url)
  {}

  lemma CollectionIsSound<T>(o: Origins, header: string, path: string, items: seq<T>, num: Numeral)
    requires Deployed(o, header) && ReadsOffsets(num, |items|)
    ensures Collection(o, header, path, items, num).Sound()
  {
    var server := Collection(o, header, path, items, num);
    forall url | server.knows(url) ensures server.SoundAt(url) {
      PagesAreSound(o, header, path, url, items, num);
      SoundPage(o, header, path, url, items, num);
    }
  }

  /**
   * Following `@odata.nextLink` from any request whose kept keys survive keeps the route and the page size, ends,
   * and yields every item from the first offset on exactly once, in order.
   */
  lemma CrawlYieldsTheCollection<T>(o: Origins, header: string, path: string, url: string, items: seq<T>, num: Numeral)
    requires Deployed(o, header) && Request(path, url) && ReadsOffsets(num, |items|)
    ensures var from := ParseSkip(QueryOf(url), num);
            Collection(o, header, path, items, num).Yields(url, if from <= |items| then items[from..] else [])
  {
    CollectionIsSound(o, header, path, items, num);
    Collection(o, header, path, items, num).CrawlIsTheRest(url);
  }

  /** The request for a published route without a query. */
  lemma PublishedRequest(o: Origins, header: string, path: string)
    requires Deployed(o, header) && GraphRoute(path)
    ensures var first := Follow(o, header, PublicUrl(o, "/graph" + path));
            Request(path, first) && QueryOf(first) == [] && Allowed(o, header, true, first)
  {
    assert PublicUrl(o, "/graph" + path) + "" == PublicUrl(o, "/graph" + path);
    PublishedIsFollowed(o, path, "", header);
  }

  lemma CrawlFromTheStart<T>(o: Origins, header: string, path: string, url: string, items: seq<T>, num: Numeral)
    requires Deployed(o, header) && Request(path, url) && ReadsOffsets(num, |items|) && QueryOf(url) == []
    ensures Collection(o, header, path, items, num).Yields(url, items)
  {
    CrawlYieldsTheCollection(o, header, path, url, items, num);
    assert ParseSkip([], num) == 0;
    assert items[0..] == items;
  }

  /** Asking for a published route without a query and following the links gives the whole collection. */
  lemma PublishedCrawl<T>(o: Origins, header: string, path: string, items: seq<T>, num: Numeral)
    requires Deployed(o, header) && GraphRoute(path) && ReadsOffsets(num, |items|)
    ensures var first := Follow(o, header, PublicUrl(o, "/graph" + path));
            Allowed(o, header, true, first) && Collection(o, header, path, items, num).Yields(first, items)
  {
    var first := Follow(o, header, PublicUrl(o, "/graph" + path));
    PublishedRequest(o, header, path);
    CrawlFromTheStart(o, header, path, first, items, num);
  }

  /** The pages of the user listing are slices of the table, and its count is the table's size. */
  lemma {:induction false} UserPagesAreSlices(rows: seq<User>, skip: nat, top: nat)
    ensures Select(rows, None) == rows
    ensures List(rows, Some(skip), Some(top), None) == Limit(rows, top, skip) && Count(rows, None) == |rows|
  {
    if rows != [] {
      UserPagesAreSlices(rows[1..], skip, top);
      assert [rows[0]] + rows[1..] == rows;
    }
  }
}
