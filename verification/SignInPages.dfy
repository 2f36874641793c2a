/** The recent-accounts cookie: a bounded most-recently-used list, shared by both sign-in flows. */
module RecentAccounts {

  const RECENT_MAX := 8

  function Take(list: seq<string>, n: nat): seq<string> { if |list| <= n then list else list[..n] }

  /** `list.filter((u) => u.toLowerCase() !== upn.toLowerCase())`. */
  function Without(list: seq<string>, upn: string, lower: string -> string): seq<string> {
    if list == [] then []
    else (if lower(list[0]) == lower(upn) then [] else [list[0]]) + Without(list[1..], upn, lower)
  }

  function MoveToFront(list: seq<string>, upn: string, lower: string -> string): seq<string> {
    [upn] + Without(list, upn, lower)
  }

  /** `rememberRecentUpn`: read at most eight entries, move the account to the front, keep eight. */
  function Remember(cookie: seq<string>, upn: string, lower: string -> string): seq<string> {
    Take(MoveToFront(Take(cookie, RECENT_MAX), upn, lower), RECENT_MAX)
  }

  /** The cookie after a run of sign-ins, oldest first, starting without one. */
  function Cookie(signIns: seq<string>, lower: string -> string): seq<string> {
    if signIns == [] then []
    else Remember(Cookie(signIns[..|signIns| - 1], lower), signIns[|signIns| - 1], lower)
  }

  /** The same run without the bound. */
  function History(signIns: seq<string>, lower: string -> string): seq<string> {
    if signIns == [] then []
    else MoveToFront(History(signIns[..|signIns| - 1], lower), signIns[|signIns| - 1], lower)
  }

  predicate Distinct(list: seq<string>, lower: string -> string) {
    forall i, j | 0 <= i < j < |list| :: lower(list[i]) != lower(list[j])
  }

  lemma {:induction false} WithoutMeans(list: seq<string>, upn: string, lower: string -> string)
    requires Distinct(list, lower)
    ensures var r := Without(list, upn, lower);
            && Distinct(r, lower) && |list| - 1 <= |r| <= |list|
            && (forall u :: u in r <==> u in list && lower(u) != lower(upn))
  {
    if list != [] {
      var rest := list[1..];
      WithoutMeans(rest, upn, lower);
      assert forall u :: u in list <==> u == list[0] || u in rest;
      if lower(list[0]) == lower(upn) {
        forall i | 0 <= i < |rest| ensures lower(rest[i]) != lower(upn) {
        }
        WithoutNone(rest, upn, lower);
      }
    }
  }

  lemma {:induction false} WithoutNone(list: seq<string>, upn: string, lower: string -> string)
    requires forall i | 0 <= i < |list| :: lower(list[i]) != lower(upn)
    ensures Without(list, upn, lower) == list
  {
    if list != [] {
      WithoutNone(list[1..], upn, lower);
    }
  }

  lemma TakeCons(x: string, list: seq<string>, n: nat)
    ensures Take([x] + list, n + 1) == [x] + Take(list, n)
  {
  }

  lemma WithoutCons(head: string, rest: seq<string>, upn: string, lower: string -> string)
    ensures Without([head] + rest, upn, lower)
            == (if lower(head) == lower(upn) then [] else [head]) + Without(rest, upn, lower)
  {
    assert ([head] + rest)[1..] == rest;
  }

  lemma TakeIsPart(list: seq<string>, n: nat)
    ensures |Take(list, n)| <= |list| && forall i | 0 <= i < |Take(list, n)| :: Take(list, n)[i] == list[i]
  {}

  /** Cutting first and cutting last leave the same entries. */
  predicate CutsAgree(list: seq<string>, n: nat, upn: string, lower: string -> string) {
    Take(Without(Take(list, n + 1), upn, lower), n) == Take(Without(list, upn, lower), n)
  }

  /** In a list without repetitions, taking the head's account out leaves the rest, cut or not. */
  lemma HeadTakenOut(head: string, rest: seq<string>, n: nat, upn: string, lower: string -> string)
    requires Distinct([head] + rest, lower) && lower(head) == lower(upn)
    ensures CutsAgree([head] + rest, n, upn, lower)
  {
    var list := [head] + rest;
    var cut := Take(rest, n);
    forall i | 0 <= i < |rest| ensures lower(rest[i]) != lower(upn) {
      assert lower(list[0]) != lower(list[i + 1]);
    }
    TakeIsPart(rest, n);
    WithoutNone(rest, upn, lower);
    WithoutNone(cut, upn, lower);
    TakeCons(head, rest, n);
    WithoutCons(head, rest, upn, lower);
    WithoutCons(head, cut, upn, lower);
    TakeTwice(rest, n);
  }

  lemma HeadKept(head: string, rest: seq<string>, n: nat, upn: string, lower: string -> string)
    requires lower(head) != lower(upn) && n >= 1 && CutsAgree(rest, n - 1, upn, lower)
    ensures CutsAgree([head] + rest, n, upn, lower)
  {
    var cut := Take(rest, n);
    TakeCons(head, rest, n);
    WithoutCons(head, rest, upn, lower);
    WithoutCons(head, cut, upn, lower);
    TakeCons(head, Without(cut, upn, lower), n - 1);
    TakeCons(head, Without(rest, upn, lower), n - 1);
  }

  lemma DistinctRest(list: seq<string>, lower: string -> string)
    requires list != [] && Distinct(list, lower)
    ensures Distinct(list[1..], lower)
  {
    var rest := list[1..];
    assert forall i | 0 <= i < |rest| :: rest[i] == list[i + 1];
  }

  lemma TakeTwice(list: seq<string>, n: nat)
    ensures Take(Take(list, n), n) == Take(list, n)
  {}

  /** One entry at most is taken out, and one is put in. */
  lemma {:induction false} WithoutOfTake(list: seq<string>, n: nat, upn: string, lower: string -> string)
    requires Distinct(list, lower)
    ensures CutsAgree(list, n, upn, lower)
  {
    if list != [] && n >= 1 {
      var head, rest := list[0], list[1..];
      assert list == [head] + rest;
      if lower(head) == lower(upn) {
        HeadTakenOut(head, rest, n, upn, lower);
      } else {
        DistinctRest(list, lower);
        WithoutOfTake(rest, n - 1, upn, lower);
        HeadKept(head, rest, n, upn, lower);
      }
    }
  }

  lemma {:induction false} HistoryIsDistinct(signIns: seq<string>, lower: string -> string)
    ensures Distinct(History(signIns, lower), lower)
  {
    if signIns != [] {
      HistoryIsDistinct(signIns[..|signIns| - 1], lower);
      WithoutMeans(History(signIns[..|signIns| - 1], lower), signIns[|signIns| - 1], lower);
    }
  }

  /** After any run of sign-ins the cookie is the first eight of the unbounded list, with no account twice. */
  lemma {:induction false} CookieIsHistoryCut(signIns: seq<string>, lower: string -> string)
    ensures Cookie(signIns, lower) == Take(History(signIns, lower), RECENT_MAX)
    ensures Distinct(Cookie(signIns, lower), lower)
  {
    HistoryIsDistinct(signIns, lower);
    if signIns != [] {
      var before, upn := signIns[..|signIns| - 1], signIns[|signIns| - 1];
      CookieIsHistoryCut(before, lower);
      HistoryIsDistinct(before, lower);
      var history := History(before, lower);
      var cut := Take(history, RECENT_MAX);
      assert Take(cut, RECENT_MAX) == cut;
      WithoutOfTake(history, RECENT_MAX - 1, upn, lower);
      TakeCons(upn, Without(cut, upn, lower), RECENT_MAX - 1);
      TakeCons(upn, Without(history, upn, lower), RECENT_MAX - 1);
    }
  }

  /** The last sign-in of an account, ignoring case; -1 when there is none. */
  function LastUse(signIns: seq<string>, upn: string, lower: string -> string): (k: int)
    ensures -1 <= k < |signIns|
  {
    if signIns == [] then -1
    else if lower(signIns[|signIns| - 1]) == lower(upn) then |signIns| - 1
    else LastUse(signIns[..|signIns| - 1], upn, lower)
  }

  /**
   * The unbounded list is every account that signed in, spelled as it last was, most recent first.
   */
  lemma {:induction false} HistoryIsByRecency(signIns: seq<string>, lower: string -> string)
    ensures var h := History(signIns, lower);
            && (forall u <- signIns :: exists v <- h :: lower(v) == lower(u))
            && (forall i | 0 <= i < |h| ::
                  LastUse(signIns, h[i], lower) >= 0 && signIns[LastUse(signIns, h[i], lower)] == h[i])
            && ByRecency(signIns, h, lower)
  {
    EveryoneIsListed(signIns, lower);
    ListedAsLastUsed(signIns, lower);
  }

  lemma {:induction false} EveryoneIsListed(signIns: seq<string>, lower: string -> string)
    ensures forall u <- signIns :: exists v <- History(signIns, lower) :: lower(v) == lower(u)
  {
    if signIns != [] {
      var before, upn := signIns[..|signIns| - 1], signIns[|signIns| - 1];
      var old_ := History(before, lower);
      EveryoneIsListed(before, lower);
      HistoryIsDistinct(before, lower);
      var rest := Without(old_, upn, lower);
      WithoutMeans(old_, upn, lower);
      forall u <- signIns ensures exists v <- [upn] + rest :: lower(v) == lower(u) {
        if lower(u) == lower(upn) {
          assert ([upn] + rest)[0] == upn;
        } else {
          assert u in before;
          var v :| v in old_ && lower(v) == lower(u);
          assert v in rest;
          assert v in [upn] + rest;
        }
      }
    }
  }

  predicate AsLastUsed(signIns: seq<string>, list: seq<string>, lower: string -> string) {
    forall i | 0 <= i < |list| ::
      LastUse(signIns, list[i], lower) >= 0 && signIns[LastUse(signIns, list[i], lower)] == list[i]
  }

  lemma {:induction false} ListedAsLastUsed(signIns: seq<string>, lower: string -> string)
    ensures var h := History(signIns, lower); AsLastUsed(signIns, h, lower) && ByRecency(signIns, h, lower)
  {
    if signIns != [] {
      var before, upn := signIns[..|signIns| - 1], signIns[|signIns| - 1];
      assert signIns == before + [upn];
      ListedAsLastUsed(before, lower);
      HistoryIsDistinct(before, lower);
      SignInIsListed(before, History(before, lower), upn, lower);
    }
  }

  lemma LastUseBefore(before: seq<string>, upn: string, u: string, lower: string -> string)
    ensures var k := LastUse(before + [upn], u, lower);
            if lower(upn) == lower(u) then k == |before| else k == LastUse(before, u, lower)
  {
    assert (before + [upn])[..|before|] == before;
  }

  lemma SignInIsListed(before: seq<string>, list: seq<string>, upn: string, lower: string -> string)
    requires Distinct(list, lower) && AsLastUsed(before, list, lower) && ByRecency(before, list, lower)
    ensures var after := MoveToFront(list, upn, lower);
            AsLastUsed(before + [upn], after, lower) && ByRecency(before + [upn], after, lower)
  {
    var rest := Without(list, upn, lower);
    WithoutMeans(list, upn, lower);
    WithoutKeepsOrder(before, list, upn, lower);
    LastUseBefore(before, upn, upn, lower);
    forall i | 0 <= i < |rest|
      ensures LastUse(before + [upn], rest[i], lower) == LastUse(before, rest[i], lower) >= 0
      ensures before[LastUse(before, rest[i], lower)] == rest[i]
    {
      assert rest[i] in rest && rest[i] in list;
      LastUseBefore(before, upn, rest[i], lower);
    }
  }

  predicate ByRecency(signIns: seq<string>, list: seq<string>, lower: string -> string) {
    forall i, j | 0 <= i < j < |list| :: LastUse(signIns, list[i], lower) > LastUse(signIns, list[j], lower)
  }

  lemma {:induction false} WithoutIsPart(list: seq<string>, upn: string, lower: string -> string)
    ensures forall u <- Without(list, upn, lower) :: u in list
  {
    if list != [] {
      WithoutIsPart(list[1..], upn, lower);
    }
  }

  lemma {:induction false} WithoutKeepsOrder(
    signIns: seq<string>, list: seq<string>, upn: string, lower: string -> string)
    requires ByRecency(signIns, list, lower)
    ensures ByRecency(signIns, Without(list, upn, lower), lower)
  {
    if list != [] {
      var rest := list[1..];
      assert ByRecency(signIns, rest, lower) by {
        forall i, j | 0 <= i < j < |rest| ensures LastUse(signIns, rest[i], lower) > LastUse(signIns, rest[j], lower) {
          assert rest[i] == list[i + 1] && rest[j] == list[j + 1];
        }
      }
      WithoutKeepsOrder(signIns, rest, upn, lower);
      WithoutIsPart(rest, upn, lower);
      var kept := Without(rest, upn, lower);
      forall j | 0 <= j < |kept| ensures LastUse(signIns, list[0], lower) > LastUse(signIns, kept[j], lower) {
        assert kept[j] in kept;
        var k :| 0 <= k < |rest| && rest[k] == kept[j];
        assert list[k + 1] == kept[j];
      }
    }
  }
}

/** `escapeHtml`: five replacements in sequence. */
module Html {

  /** `value.replace(/c/g, entity)`. */
  function ReplaceAll(s: string, c: char, entity: string): string {
    if s == "" then "" else (if s[0] == c then entity else [s[0]]) + ReplaceAll(s[1..], c, entity)
  }

  function EscapeHtml(value: string): string {
    ReplaceAll(ReplaceAll(ReplaceAll(ReplaceAll(ReplaceAll(value,
      '&', "&amp;"), '<', "&lt;"), '>', "&gt;"), '"', "&quot;"), '\'', "&#39;")
  }

  function Entity(c: char): string {
    if c == '&' then "&amp;" else if c == '<' then "&lt;" else if c == '>' then "&gt;"
    else if c == '"' then "&quot;" else if c == '\'' then "&#39;" else [c]
  }

  /** One pass, one substitution per character. */
  function Substitute(s: string): string {
    if s == "" then "" else Entity(s[0]) + Substitute(s[1..])
  }

  /** Reads the entities back; an ampersand that begins none of them stands for itself. */
  function Decode(s: string): string
    decreases |s|
  {
    if s == "" then ""
    else if s[0] != '&' || |s| < 4 then [s[0]] + Decode(s[1..])
    else if s[1] == 'a' && "&amp;" <= s then "&" + Decode(s[5..])
    else if s[1] == 'l' && "&lt;" <= s then "<" + Decode(s[4..])
    else if s[1] == 'g' && "&gt;" <= s then ">" + Decode(s[4..])
    else if s[1] == 'q' && "&quot;" <= s then "\"" + Decode(s[6..])
    else if s[1] == '#' && "&#39;" <= s then "'" + Decode(s[5..])
    else [s[0]] + Decode(s[1..])
  }

  lemma {:induction false} ReplaceAllConcat(a: string, b: string, c: char, entity: string)
    ensures ReplaceAll(a + b, c, entity) == ReplaceAll(a, c, entity) + ReplaceAll(b, c, entity)
  {
    if a == "" {
      assert a + b == b;
    } else {
      assert (a + b)[1..] == a[1..] + b;
      ReplaceAllConcat(a[1..], b, c, entity);
    }
  }

  lemma {:induction false} ReplaceNone(s: string, c: char, entity: string)
    requires c !in s
    ensures ReplaceAll(s, c, entity) == s
  {
    if s != "" {
      ReplaceNone(s[1..], c, entity);
    }
  }

  lemma ReplaceOne(c: char, d: char, entity: string)
    ensures ReplaceAll([c], d, entity) == if c == d then entity else [c]
  {
    assert [c][1..] == "";
  }

  // The passes from the second, third, fourth and fifth on.
  function Pass5(s: string): string { ReplaceAll(s, '\'', "&#39;") }
  function Pass4(s: string): string { Pass5(ReplaceAll(s, '"', "&quot;")) }
  function Pass3(s: string): string { Pass4(ReplaceAll(s, '>', "&gt;")) }
  function Pass2(s: string): string { Pass3(ReplaceAll(s, '<', "&lt;")) }

  predicate Plain(c: char) { c != '<' && c != '>' && c != '"' && c != '\'' }

  /** The later passes leave the entities of the earlier ones alone. */
  lemma PlainTextIsKept(s: string)
    requires forall i | 0 <= i < |s| :: Plain(s[i])
    ensures Pass5(s) == s && Pass4(s) == s && Pass3(s) == s && Pass2(s) == s
  {
    ReplaceNone(s, '\'', "&#39;");
    ReplaceNone(s, '"', "&quot;");
    ReplaceNone(s, '>', "&gt;");
    ReplaceNone(s, '<', "&lt;");
  }

  lemma EntityIsPlain(c: char)
    ensures !Plain(c) || c == '&' ==> forall i | 0 <= i < |Entity(c)| :: Plain(Entity(c)[i])
  {
  }

  /** One character through each pass: turned into its entity there, or handed to the next. */
  lemma PassOne(c: char)
    ensures Pass5([c]) == if c == '\'' then Entity(c) else [c]
    ensures Pass4([c]) == if c == '"' then Pass5(Entity(c)) else Pass5([c])
    ensures Pass3([c]) == if c == '>' then Pass4(Entity(c)) else Pass4([c])
    ensures Pass2([c]) == if c == '<' then Pass3(Entity(c)) else Pass3([c])
    ensures EscapeHtml([c]) == if c == '&' then Pass2(Entity(c)) else Pass2([c])
  {
    ReplaceOne(c, '&', "&amp;");
    ReplaceOne(c, '<', "&lt;");
    ReplaceOne(c, '>', "&gt;");
    ReplaceOne(c, '"', "&quot;");
    ReplaceOne(c, '\'', "&#39;");
  }

  lemma EscapeOne(c: char)
    ensures EscapeHtml([c]) == Entity(c)
  {
    PassOne(c);
    if !Plain(c) || c == '&' {
      EntityIsPlain(c);
      PlainTextIsKept(Entity(c));
    }
  }

  lemma EscapeConcat(a: string, b: string)
    ensures EscapeHtml(a + b) == EscapeHtml(a) + EscapeHtml(b)
  {
    ReplaceAllConcat(a, b, '&', "&amp;");
    var a1, b1 := ReplaceAll(a, '&', "&amp;"), ReplaceAll(b, '&', "&amp;");
    ReplaceAllConcat(a1, b1, '<', "&lt;");
    var a2, b2 := ReplaceAll(a1, '<', "&lt;"), ReplaceAll(b1, '<', "&lt;");
    ReplaceAllConcat(a2, b2, '>', "&gt;");
    var a3, b3 := ReplaceAll(a2, '>', "&gt;"), ReplaceAll(b2, '>', "&gt;");
    ReplaceAllConcat(a3, b3, '"', "&quot;");
    ReplaceAllConcat(ReplaceAll(a3, '"', "&quot;"), ReplaceAll(b3, '"', "&quot;"), '\'', "&#39;");
  }

  /** The five passes are one substitution per character. */
  lemma {:induction false} EscapeIsSubstitution(value: string)
    ensures EscapeHtml(value) == Substitute(value)
  {
    if value != "" {
      EscapeIsSubstitution(value[1..]);
      assert value == [value[0]] + value[1..];
      EscapeConcat([value[0]], value[1..]);
      EscapeOne(value[0]);
    }
  }

  lemma DecodeEntity(c: char, rest: string)
    ensures Decode(Entity(c) + rest) == [c] + Decode(rest)
  {
    var e := Entity(c);
    var s := e + rest;
    assert s[|e|..] == rest && e <= s;
    assert s[0] == e[0];
    if |e| > 1 {
      assert s[1] == e[1];
    }
  }

  lemma {:induction false} SubstituteIsLossless(s: string)
    ensures Decode(Substitute(s)) == s
  {
    if s != "" {
      SubstituteIsLossless(s[1..]);
      DecodeEntity(s[0], Substitute(s[1..]));
    }
  }

  lemma {:induction false} SubstituteIsPlain(s: string)
    ensures forall i | 0 <= i < |Substitute(s)| :: Plain(Substitute(s)[i])
  {
    if s != "" {
      EntityIsPlain(s[0]);
      SubstituteIsPlain(s[1..]);
    }
  }

  /** Escaping is lossless and leaves no character that could open a tag or close an attribute. */
  lemma EscapingIsLosslessAndSafe(value: string)
    ensures Decode(EscapeHtml(value)) == value
    ensures forall i | 0 <= i < |EscapeHtml(value)| :: Plain(EscapeHtml(value)[i])
  {
    EscapeIsSubstitution(value);
    SubstituteIsLossless(value);
    SubstituteIsPlain(value);
  }
}
