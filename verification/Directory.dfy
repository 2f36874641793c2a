/** SQLite's LIKE with `ESCAPE '\'`, and the escaping that makes a search term literal. */
module Like {
  import opened Text

  const ESCAPE := '\\'

  /** LIKE ignores case for ASCII letters only. */
  predicate FoldEqual(s: string, t: string) {
    |s| == |t| && forall i | 0 <= i < |s| :: Fold(s[i]) == Fold(t[i])
  }

  /** `%` matches any text, `_` one character, the escape makes the next character literal; a dangling escape fails. */
  predicate Matches(pattern: string, text: string)
    decreases |pattern|, |text|
  {
    if pattern == "" then text == ""
    else if pattern[0] == '%' then
      Matches(pattern[1..], text) || (text != "" && Matches(pattern, text[1..]))
    else if pattern[0] == ESCAPE then
      |pattern| >= 2 && text != "" && Fold(pattern[1]) == Fold(text[0]) && Matches(pattern[2..], text[1..])
    else if pattern[0] == '_' then
      text != "" && Matches(pattern[1..], text[1..])
    else
      text != "" && Fold(pattern[0]) == Fold(text[0]) && Matches(pattern[1..], text[1..])
  }

  /** `escapeLike`: a backslash before each backslash, percent and underscore. */
  function EscapeLike(term: string): string {
    if term == "" then ""
    else (if term[0] in ['\\', '%', '_'] then [ESCAPE, term[0]] else [term[0]]) + EscapeLike(term[1..])
  }

  lemma {:induction false} PercentMatchesAll(text: string)
    ensures Matches("%", text)
  {
    if text != "" {
      PercentMatchesAll(text[1..]);
    }
  }

  /** An escaped term followed by `%` matches exactly the texts that begin with the term. */
  lemma {:induction false} EscapedIsLiteral(term: string, text: string)
    ensures Matches(EscapeLike(term) + "%", text) <==> |term| <= |text| && FoldEqual(term, text[..|term|])
  {
    var pattern := EscapeLike(term) + "%";
    if term == "" {
      assert pattern == "%";
      PercentMatchesAll(text);
    } else {
      var rest := EscapeLike(term[1..]) + "%";
      assert pattern == (if term[0] in ['\\', '%', '_'] then [ESCAPE, term[0]] else [term[0]]) + rest;
      if text != "" {
        EscapedIsLiteral(term[1..], text[1..]);
        assert if term[0] in ['\\', '%', '_'] then pattern[2..] == rest else pattern[1..] == rest;
        if |term| <= |text| {
          assert text[..|term|] == [text[0]] + text[1..][..|term| - 1];
          assert FoldEqual(term, text[..|term|])
            <==> Fold(term[0]) == Fold(text[0]) && FoldEqual(term[1..], text[1..][..|term| - 1]);
        }
      }
    }
  }

  /** A leading `%` matches when the rest matches some suffix. */
  lemma {:induction false} PercentSkips(rest: string, text: string)
    ensures Matches("%" + rest, text) <==> exists i :: 0 <= i <= |text| && Matches(rest, text[i..])
  {
    var pattern := "%" + rest;
    assert pattern[1..] == rest && text[0..] == text;
    if text != "" {
      PercentSkips(rest, text[1..]);
      forall i | 1 <= i <= |text| ensures text[i..] == text[1..][i - 1..] {
      }
      if Matches(pattern, text[1..]) {
        var i :| 0 <= i <= |text[1..]| && Matches(rest, text[1..][i..]);
        assert text[1..][i..] == text[i + 1..];
      }
    }
  }

  predicate OccursAt(term: string, text: string, i: int) {
    0 <= i && i + |term| <= |text| && FoldEqual(term, text[i..i + |term|])
  }

  /** `term` occurs in `text`, ignoring ASCII case. */
  ghost predicate Occurs(term: string, text: string) {
    exists i :: OccursAt(term, text, i)
  }

  function SearchPattern(term: string): string { "%" + EscapeLike(term) + "%" }

  /** The search pattern matches exactly the texts the term occurs in, whatever wildcards the term holds. */
  lemma SearchIsSubstring(term: string, text: string)
    ensures Matches(SearchPattern(term), text) <==> Occurs(term, text)
  {
    var rest := EscapeLike(term) + "%";
    assert SearchPattern(term) == "%" + rest;
    PercentSkips(rest, text);
    forall i | 0 <= i <= |text| ensures Matches(rest, text[i..]) <==> OccursAt(term, text, i) {
      EscapedIsLiteral(term, text[i..]);
      if i + |term| <= |text| {
        assert text[i..][..|term|] == text[i..i + |term|];
      }
    }
  }
}

/** The user listing: search, order and paging. */
module Users {
  import opened Text
  import opened Scopes
  import opened Like

  datatype User = User(id: string, upn: string, displayName: string)

  /** `trim()`. */
  function Trim(s: string): string {
    if s != "" && IsSpace(s[0]) then Trim(s[1..])
    else if s != "" && IsSpace(s[|s| - 1]) then Trim(s[..|s| - 1])
    else s
  }

  predicate AllSpace(s: string) { forall i | 0 <= i < |s| :: IsSpace(s[i]) }

  predicate Frames(s: string, front: string, inner: string, back: string) {
    s == front + inner + back && AllSpace(front) && AllSpace(back)
  }

  lemma OneMoreSpace(c: char, s: string, front: string, inner: string, back: string)
    requires IsSpace(c) && Frames(s, front, inner, back)
    ensures Frames([c] + s, [c] + front, inner, back)
    ensures Frames(s + [c], front, inner, back + [c])
  {
    assert [c] + (front + inner + back) == ([c] + front) + inner + back;
    assert (front + inner + back) + [c] == front + inner + (back + [c]);
  }

  /** Trimming drops white space at both ends, all of it and nothing else. */
  lemma TrimMeans(s: string) returns (front: string, back: string)
    ensures Frames(s, front, Trim(s), back)
    ensures |Trim(s)| > 0 ==> !IsSpace(Trim(s)[0]) && !IsSpace(Trim(s)[|Trim(s)| - 1])
  {
    TrimEnds(s);
    front, back := TrimFrames(s);
  }

  lemma {:induction false} TrimEnds(s: string)
    ensures |Trim(s)| > 0 ==> !IsSpace(Trim(s)[0]) && !IsSpace(Trim(s)[|Trim(s)| - 1])
  {
    if s != "" && IsSpace(s[0]) {
      TrimEnds(s[1..]);
    } else if s != "" && IsSpace(s[|s| - 1]) {
      TrimEnds(s[..|s| - 1]);
    }
  }

  lemma {:induction false} TrimFrames(s: string) returns (front: string, back: string)
    ensures Frames(s, front, Trim(s), back)
  {
    if s != "" && IsSpace(s[0]) {
      var c, rest := s[0], s[1..];
      assert s == [c] + rest && Trim(s) == Trim(rest);
      front, back := TrimFrames(rest);
      OneMoreSpace(c, rest, front, Trim(rest), back);
      front := [c] + front;
    } else if s != "" && IsSpace(s[|s| - 1]) {
      var rest, c := s[..|s| - 1], s[|s| - 1];
      assert s == rest + [c] && Trim(s) == Trim(rest);
      front, back := TrimFrames(rest);
      OneMoreSpace(c, rest, front, Trim(rest), back);
      back := back + [c];
    } else {
      front, back := "", "";
    }
  }

  predicate Selected(user: User, search: Option<string>) {
    search.None? || Trim(search.value) == ""
    || Matches(SearchPattern(Trim(search.value)), user.upn)
    || Matches(SearchPattern(Trim(search.value)), user.displayName)
  }

  /** The rows a query selects; `rows` is the table in its order, by creation time and id. */
  function Select(rows: seq<User>, search: Option<string>): (selected: seq<User>)
    ensures |selected| <= |rows|
  {
    if rows == [] then []
    else (if Selected(rows[0], search) then [rows[0]] else []) + Select(rows[1..], search)
  }

  /** `LIMIT ? OFFSET ?`: a negative limit is no limit, a negative offset is zero. */
  function Limit<T>(rows: seq<T>, top: int, skip: int): seq<T> {
    var from := if skip < 0 then 0 else if skip > |rows| then |rows| else skip;
    var to := if top < 0 || from + top > |rows| then |rows| else from + top;
    rows[from..to]
  }

  const DEFAULT_PAGE := 100

  function List(rows: seq<User>, skip: Option<int>, top: Option<int>, search: Option<string>): seq<User> {
    Limit(Select(rows, search),
          if top.Some? then top.value else DEFAULT_PAGE,
          if skip.Some? then skip.value else 0)
  }

  function Count(rows: seq<User>, search: Option<string>): nat { |Select(rows, search)| }

  /** The pages of one size from an offset on, put together. */
  function Pages(rows: seq<User>, skip: nat, top: nat, search: Option<string>): seq<User>
    requires top >= 1
    decreases if skip < Count(rows, search) then Count(rows, search) - skip else 0
  {
    if skip >= Count(rows, search) then []
    else List(rows, Some(skip), Some(top), search) + Pages(rows, skip + top, top, search)
  }

  /** A user is selected exactly when the trimmed term is empty or occurs in one of its two names. */
  lemma SelectedMeans(user: User, term: string)
    ensures Selected(user, Some(term))
            <==> Trim(term) == "" || Occurs(Trim(term), user.upn) || Occurs(Trim(term), user.displayName)
  {
    SearchIsSubstring(Trim(term), user.upn);
    SearchIsSubstring(Trim(term), user.displayName);
  }

  lemma SelectFirst(user: User, rest: seq<User>, search: Option<string>)
    ensures Select([user] + rest, search) == (if Selected(user, search) then [user] else []) + Select(rest, search)
  {
    assert ([user] + rest)[1..] == rest;
  }

  /** Without paging parameters a listing is the first hundred rows; an offset and a limit cut out just that part. */
  lemma ListMeans(rows: seq<User>, skip: nat, top: nat, search: Option<string>)
    ensures var all := Select(rows, search);
            && List(rows, None, None, search) == (if |all| <= 100 then all else all[..100])
            && List(rows, Some(skip), Some(top), search) == Cut(all, skip, top)
  {
    LimitCuts(Select(rows, search), 100, 0);
    LimitCuts(Select(rows, search), top, skip);
  }

  lemma LimitCuts<T>(all: seq<T>, top: nat, skip: nat)
    ensures Limit(all, top, skip) == Cut(all, skip, top)
  {}

  function Cut<T>(all: seq<T>, skip: nat, top: nat): seq<T> {
    if skip + top <= |all| then all[skip..skip + top] else if skip <= |all| then all[skip..] else []
  }

  /** Selection keeps the table's order: it distributes over every split of the table. */
  lemma {:induction false} SelectKeepsOrder(a: seq<User>, b: seq<User>, search: Option<string>)
    ensures Select(a + b, search) == Select(a, search) + Select(b, search)
  {
    if a == [] {
      assert a + b == b;
    } else {
      assert a + b == [a[0]] + (a[1..] + b) && a == [a[0]] + a[1..];
      SelectFirst(a[0], a[1..] + b, search);
      SelectFirst(a[0], a[1..], search);
      SelectKeepsOrder(a[1..], b, search);
    }
  }

  /** Selection keeps exactly the selected rows, each as often as the table has it. */
  lemma {:induction false} SelectMeans(rows: seq<User>, search: Option<string>)
    ensures forall u :: multiset(Select(rows, search))[u] == if Selected(u, search) then multiset(rows)[u] else 0
  {
    if rows != [] {
      SelectMeans(rows[1..], search);
      assert rows == [rows[0]] + rows[1..];
    }
  }

  /** One page and the rows after it. */
  lemma PageAndRest(rows: seq<User>, skip: nat, top: nat)
    requires skip < |rows|
    ensures Limit(rows, top, skip) + (if skip + top <= |rows| then rows[skip + top..] else []) == rows[skip..]
  {
    if skip + top <= |rows| {
      assert rows[skip..skip + top] + rows[skip + top..] == rows[skip..];
    } else {
      assert Limit(rows, top, skip) + [] == rows[skip..];
    }
  }

  lemma PagesStep(rows: seq<User>, skip: nat, top: nat, search: Option<string>)
    requires top >= 1 && skip < Count(rows, search)
    ensures Pages(rows, skip, top, search)
            == Limit(Select(rows, search), top, skip) + Pages(rows, skip + top, top, search)
  {}

  /** Reading page after page, of any size and from any offset, gives every remaining row once, in order. */
  lemma {:induction false} PagesCoverTheList(rows: seq<User>, skip: nat, top: nat, search: Option<string>)
    requires top >= 1 && skip <= Count(rows, search)
    ensures Pages(rows, skip, top, search) == Select(rows, search)[skip..]
    decreases Count(rows, search) - skip
  {
    if skip < Count(rows, search) {
      PagesStep(rows, skip, top, search);
      PageAndRest(Select(rows, search), skip, top);
      if skip + top <= Count(rows, search) {
        PagesCoverTheList(rows, skip + top, top, search);
      }
    }
  }
}
