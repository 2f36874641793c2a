/** What becomes of a query key that does not survive: a page that comes twice. */
module LostKeys {
  import opened Text
  import opened Percent
  import opened QueryStrings
  import opened GraphUrls
  import opened GraphPaging
  import opened Users

  /** A text that no query syntax touches. */
  predicate Plain(s: string) { s != "" && forall i | 0 <= i < |s| :: s[i] !in ['%', '+', '&', '=', '#'] }

  lemma PlainIsKept(s: string)
    requires Plain(s)
    ensures '%' !in s && '+' !in s && '&' !in s && '=' !in s && '#' !in s
    ensures Component(s) == s
  {
    PlainDecodes(s);
  }

  lemma PlainPair(key: string, value: string, rest: string)
    requires Plain(key) && Plain(value)
    ensures Pairs(key + "=" + value) == [(key, value)]
    ensures Pairs(key + "=" + value + "&" + rest) == [(key, value)] + Pairs(rest)
  {
    PlainIsKept(key);
    PlainIsKept(value);
    PairOf(key, value);
    FirstPiece(key + "=" + value, rest);
  }

  lemma BareKey(key: string, rest: string)
    requires Plain(key)
    ensures Pairs(key + "&" + rest) == [(key, "")] + Pairs(rest)
  {
    PlainIsKept(key);
    FirstPiece(key, rest);
    UpToSplits(key, '=', "");
    assert key + "" == key;
  }

  /** A first value, once read, stays first whatever is read after it. */
  lemma {:induction false} AddKeepsFirst(query: Query, key: string, value: string, k: string)
    requires First(query, k).Some?
    ensures First(Add(query, key, value), k) == First(query, k)
  {
    if query[0].key == key {
      var e := Entry(key, query[0].values + [value]);
      assert Add(query, key, value)[0] == e && Add(query, key, value)[1..] == query[1..];
    } else if query[0].key != k {
      AddKeepsFirst(query[1..], key, value, k);
    }
  }

  lemma {:induction false} AddAllKeepsFirst(query: Query, ps: seq<(string, string)>, k: string)
    requires First(query, k).Some?
    ensures First(AddAll(query, ps), k) == First(query, k)
    decreases |ps|
  {
    if ps != [] {
      AddKeepsFirst(query, ps[0].0, ps[0].1, k);
      AddAllKeepsFirst(Add(query, ps[0].0, ps[0].1), ps[1..], k);
    }
  }

  lemma SecondIsFirst(x: string, k: string, z: string, rest: seq<(string, string)>)
    requires x != k
    ensures First(AddAll([], [(x, "")] + ([(k, z)] + rest)), k) == Some(z)
  {
    var e, f := Entry(x, [""]), Entry(k, [z]);
    var ps := [(x, "")] + ([(k, z)] + rest);
    assert ps[1..] == [(k, z)] + rest && ps[1..][1..] == rest;
    assert [e][1..] == [] && Add([], x, "") == [e];
    assert Add([e], k, z) == [e] + [f];
    assert ([e] + [f])[1..] == [f] && First([e] + [f], k) == Some(z);
    AddAllKeepsFirst([e] + [f], rest, k);
  }

  lemma {:induction false} AbsentStaysAbsent(query: Query, ps: seq<(string, string)>, k: string)
    requires forall i | 0 <= i < |query| :: query[i].key != k
    requires forall i | 0 <= i < |ps| :: ps[i].0 != k
    ensures First(AddAll(query, ps), k) == None
    decreases |ps|
  {
    if ps == [] {
      NoSuchKey(query, k);
    } else {
      AddAvoids(query, ps[0].0, ps[0].1, k);
      AbsentStaysAbsent(Add(query, ps[0].0, ps[0].1), ps[1..], k);
    }
  }

  lemma {:induction false} NoSuchKey(query: Query, k: string)
    requires forall i | 0 <= i < |query| :: query[i].key != k
    ensures First(query, k) == None
  {
    if query != [] {
      NoSuchKey(query[1..], k);
    }
  }

  /** The written form of the lost key and of the offset after it, and what is read from it. */
  lemma LostPairs(x: string, k: string, z: string, d: string)
    requires Plain(x) && Plain(k) && Plain(z) && Plain(d)
    ensures Pairs(x + "&" + (k + "=" + z + "&" + (k + "=" + d))) == [(x, "")] + ([(k, z)] + [(k, d)])
  {
    var last := k + "=" + d;
    BareKey(x, k + "=" + z + "&" + last);
    PlainPair(k, z, last);
    PlainPair(k, d, "");
  }

  lemma LostTextReads(x: string, k: string, z: string, d: string, t: string)
    requires Plain(x) && Plain(k) && Plain(z) && Plain(d) && x != k && t !in {x, k}
    ensures var query := Parse(x + "&" + (k + "=" + z + "&" + (k + "=" + d)));
            First(query, k) == Some(z) && First(query, t) == None
  {
    LostPairs(x, k, z, d);
    SecondIsFirst(x, k, z, [(k, d)]);
    AbsentStaysAbsent([], [(x, "")] + ([(k, z)] + [(k, d)]), t);
  }

  lemma LostTextHasNoHash(x: string, k: string, z: string, d: string)
    requires Plain(x) && Plain(k) && Plain(z) && Plain(d)
    ensures '#' !in x + "&" + (k + "=" + z + "&" + (k + "=" + d))
  {
    PlainIsKept(x);
    PlainIsKept(k);
    PlainIsKept(z);
    PlainIsKept(d);
  }

  /** The query the handler has of `x%26<k>=<z>`: one key, with the ampersand decoded. */
  lemma LostParses(k: string, z: string)
    requires Plain(k) && Plain(z)
    ensures Parse("x%26" + k + "=" + z) == [Entry("x&" + k, [z])]
  {
    var key := "x%26" + k;
    PlainIsKept(k);
    PlainIsKept(z);
    AmpersandDecodes(k);
    FrontIsPlain(k);
    PairOf(key, z);
    assert '&' !in key + "=" + z;
    FirstPiece(key + "=" + z, "");
    OneAdded("x&" + k, z);
  }

  lemma OneAdded(key: string, value: string)
    ensures AddAll([], [(key, value)]) == [Entry(key, [value])]
  {
    assert [(key, value)][1..] == [];
    assert AddAll(Add([], key, value), []) == [Entry(key, [value])];
  }

  lemma FrontIsPlain(k: string)
    requires '=' !in k && '&' !in k
    ensures '=' !in "x%26" + k && '&' !in "x%26" + k
  {
    var front := "x%26";
    assert front == ['x', '%', '2', '6'];
    assert '=' !in front && '&' !in front;
  }

  lemma AmpersandDecodes(rest: string)
    requires '%' !in rest && '+' !in rest
    ensures Component("x%26" + rest) == "x&" + rest
  {
    var whole := "x%26" + rest;
    PlainDecodes(rest);
    EscapeDecodes(rest);
    assert whole[0] == 'x' && whole[1..] == "%26" + rest;
    assert Decode(whole) == Some(['x'] + (['&'] + rest));
    assert ['x'] + (['&'] + rest) == "x&" + rest;
  }

  lemma EscapeDecodes(rest: string)
    requires Decode(rest) == Some(rest)
    ensures Decode("%26" + rest) == Some(['&'] + rest)
  {
    var escaped := "%26" + rest;
    assert DecodeByte(escaped) == Some(0x26);
    assert escaped[3..] == rest;
    assert Continue(rest, 0, 0x26) == Some(0x26);
    assert DecodeChar(escaped) == Some(('&', 3));
  }

  lemma TwoJoined(a: string, b: string)
    ensures JoinPieces([a] + [b]) == a + "&" + b
  {
    assert ([a] + [b])[1..] == [b];
  }

  lemma Reassociated(k: string, z: string, last: string)
    ensures "x&" + k + "=" + z + "&" + last == "x" + "&" + (k + "=" + z + "&" + last)
  {
    assert "x&" == "x" + "&";
  }

  /** The link's query for that request. */
  lemma LostLinkText(z: string, n: nat)
    requires Encode(z) == z
    ensures LinkText([Entry("x&" + SKIP, [z])], n)
            == "x" + "&" + (SKIP + "=" + z + "&" + (SKIP + "=" + Dec(n)))
  {
    var k := "x&" + SKIP;
    LinkQuery([Entry(k, [z])], n);
    OnlyOther(Entry(k, [z]));
    OnePiece(k, z);
    TwoJoined(k + "=" + z, SKIP + "=" + Dec(n));
    Reassociated(SKIP, z, SKIP + "=" + Dec(n));
  }

  lemma OnlyOther(e: Entry)
    requires |e.key| == |SKIP| + 2
    ensures Others([e]) == [e]
  {
    assert e.key != SKIP;
    assert [e][1..] == [];
    assert Others([]) == [];
  }

  lemma SkipIsPlain()
    ensures Plain(SKIP) && "x" != SKIP && SKIP != TOP && TOP != "x"
  {
    var key := SKIP;
    assert key == ['$', 's', 'k', 'i', 'p', 't', 'o', 'k', 'e', 'n'];
    assert |key| == 10 && |TOP| == 4;
  }

  lemma DigitsArePlain(n: nat)
    ensures Plain(Dec(n)) && Encode(Dec(n)) == Dec(n)
  {
    DecIsDigits(n);
    UnreservedIsKept(Dec(n));
    assert Dec(n) != "";
    forall i | 0 <= i < |Dec(n)| ensures '0' <= Dec(n)[i] <= '9' {
      assert Dec(n)[i] in Dec(n);
    }
  }

  lemma NeitherParameter(e: Entry)
    requires |e.key| == |SKIP| + 2
    ensures First([e], SKIP) == None && First([e], TOP) == None
  {
    assert |TOP| < |SKIP|;
    NoSuchKey([e], SKIP);
    NoSuchKey([e], TOP);
  }

  /** The request: its only key decodes to a text that ends in the offset's name. */
  function LostUrl(path: string): string { "/graph" + path + ("?" + ("x%26" + SKIP + "=" + Dec(0))) }

  lemma LostRequest(path: string, num: Numeral)
    requires GraphRoute(path)
    ensures PathOnly(LostUrl(path)) == "/graph" + path
    ensures QueryOf(LostUrl(path)) == [Entry("x&" + SKIP, [Dec(0)])]
    ensures ParseTop(QueryOf(LostUrl(path)), num) == DEFAULT_TOP && ParseSkip(QueryOf(LostUrl(path)), num) == 0
  {
    var qs := "x%26" + SKIP + "=" + Dec(0);
    var graph := "/graph";
    SkipIsPlain();
    DigitsArePlain(0);
    assert '?' !in graph + path;
    UpToSplits(graph + path, '?', "?" + qs);
    QueryOfUrl(LostUrl(path), graph + path, qs);
    LostParses(SKIP, Dec(0));
    NeitherParameter(Entry("x&" + SKIP, [Dec(0)]));
  }

  /** Following the link, the handler finds the caller's text before the offset of the link. */
  lemma LostLinkLeadsBack(o: Origins, header: string, path: string, n: nat, num: Numeral)
    requires Deployed(o, header) && GraphRoute(path) && num(Dec(0)) == Some(0)
    ensures var next := Follow(o, header, NextLink(o, "/graph" + path, [Entry("x&" + SKIP, [Dec(0)])], n));
            ParseSkip(QueryOf(next), num) == 0 && ParseTop(QueryOf(next), num) == DEFAULT_TOP
  {
    var query := [Entry("x&" + SKIP, [Dec(0)])];
    var qs := LinkText(query, n);
    SkipIsPlain();
    DigitsArePlain(0);
    DigitsArePlain(n);
    LostLinkText(Dec(0), n);
    LostTextReads("x", SKIP, Dec(0), Dec(n), TOP);
    LostTextHasNoHash("x", SKIP, Dec(0), Dec(n));
    LinkShape(o, "/graph" + path, query, n);
    assert QueryPart("?" + qs);
    PublishedIsFollowed(o, path, "?" + qs, header);
    QueryOfUrl("/graph" + path + ("?" + qs), "/graph" + path, qs);
  }

  /** A request without a size and with offset zero gets the first page. */
  lemma FirstPage<T>(o: Origins, url: string, items: seq<T>, num: Numeral)
    requires ParseTop(QueryOf(url), num) == DEFAULT_TOP && ParseSkip(QueryOf(url), num) == 0
    requires |items| > DEFAULT_TOP
    ensures PageAt(o, url, items, num)
            == Page(items[..DEFAULT_TOP], Some(NextLink(o, PathOnly(url), QueryOf(url), DEFAULT_TOP)))
  {
    assert items[0..DEFAULT_TOP] == items[..DEFAULT_TOP];
  }

  /** The offset of this request's next link is lost on the way: the client gets the first page a second time. */
  lemma LostKeyRepeatsThePage<T>(o: Origins, header: string, path: string, items: seq<T>, num: Numeral)
    requires Deployed(o, header) && GraphRoute(path) && ReadsOffsets(num, |items|) && |items| > DEFAULT_TOP
    ensures var page := PageAt(o, LostUrl(path), items, num);
            && page.value == items[..DEFAULT_TOP] && page.nextLink.Some?
            && PageAt(o, Follow(o, header, page.nextLink.value), items, num).value == items[..DEFAULT_TOP]
  {
    var link := NextLink(o, "/graph" + path, [Entry("x&" + SKIP, [Dec(0)])], DEFAULT_TOP);
    LostRequest(path, num);
    FirstPage(o, LostUrl(path), items, num);
    LostLinkLeadsBack(o, header, path, DEFAULT_TOP, num);
    FirstPage(o, Follow(o, header, link), items, num);
  }
}
