/** Trimming newlines, joining lines, and where a pattern without newlines can occur. */
module Lines {
  import opened Text

  /** `replace(/\n+$/, '')`. */
  function TrimEnd(s: string): (r: string)
    ensures |r| <= |s|
  {
    if s != "" && s[|s| - 1] == '\n' then TrimEnd(s[..|s| - 1]) else s
  }

  /** `replace(/^\n+/, '')`. */
  function TrimStart(s: string): (r: string)
    ensures |r| <= |s|
  {
    if s != "" && s[0] == '\n' then TrimStart(s[1..]) else s
  }

  /** Trimming the end drops exactly the trailing newlines. */
  lemma {:induction false} TrimEndDropsNewlines(s: string)
    ensures var r := TrimEnd(s);
            && (forall i | 0 <= i < |r| :: r[i] == s[i])
            && (forall i | |r| <= i < |s| :: s[i] == '\n')
            && (r == "" || r[|r| - 1] != '\n')
  {
    if s != "" && s[|s| - 1] == '\n' {
      TrimEndDropsNewlines(s[..|s| - 1]);
    }
  }

  /** Trimming the start drops exactly the leading newlines. */
  lemma {:induction false} TrimStartDropsNewlines(s: string)
    ensures var r := TrimStart(s);
            var n := |s| - |r|;
            && (forall i | 0 <= i < |r| :: r[i] == s[n + i])
            && (forall i | 0 <= i < n :: s[i] == '\n')
            && (r == "" || r[0] != '\n')
  {
    if s != "" && s[0] == '\n' {
      TrimStartDropsNewlines(s[1..]);
      var r := TrimStart(s);
      forall i | 0 <= i < |r| ensures r[i] == s[|s| - |r| + i] {
        assert r[i] == s[1..][|s| - 1 - |r| + i];
      }
    }
  }

  /** `lines.join('\n')`. */
  function JoinLines(lines: seq<string>): string {
    if |lines| == 0 then ""
    else if |lines| == 1 then lines[0]
    else lines[0] + "\n" + JoinLines(lines[1..])
  }

  predicate OneLine(p: string) { p != "" && '\n' !in p }

  lemma IndexOfIs(s: string, p: string, from: nat, k: nat)
    requires from <= k && At(s, p, k) && forall i | from <= i < k :: !At(s, p, i)
    ensures from <= |s| && IndexOf(s, p, from) == k
  {
  }

  /** Occurrences in a text and in its suffix. */
  lemma Shifted(s: string, n: nat, suffix: string, p: string, i: int)
    requires |s| == n + |suffix| && forall j | 0 <= j < |suffix| :: suffix[j] == s[n + j]
    ensures n <= i ==> (At(suffix, p, i - n) <==> At(s, p, i))
  {
    if n <= i && i + |p| <= |s| {
      if At(s, p, i) {
        forall k | 0 <= k < |p| ensures p[k] == suffix[i - n + k] {
          assert p[k] == s[i + k] && suffix[i - n + k] == s[n + (i - n + k)];
        }
      }
      if At(suffix, p, i - n) {
        forall k | 0 <= k < |p| ensures p[k] == s[i + k] {
          assert p[k] == suffix[i - n + k] == s[n + (i - n + k)];
        }
      }
    }
  }

  lemma NoStraddle(s: string, n: nat, p: string, i: int)
    requires OneLine(p) && n < |s| && s[n] == '\n' && i <= n < i + |p|
    ensures !At(s, p, i)
  {
    if 0 <= i {
      assert p[n - i] in p;
    }
  }

  lemma AtFront(s: string, front: string, p: string, i: int)
    requires front <= s && i + |p| <= |front|
    ensures At(s, p, i) <==> At(front, p, i)
  {}

  /** A pattern without newlines never straddles one. */
  lemma NewlineSplits(a: string, b: string, p: string, i: int)
    requires OneLine(p)
    ensures At(a + "\n" + b, p, i) <==> At(a, p, i) || At(b, p, i - |a| - 1)
  {
    var s := a + "\n" + b;
    if i + |p| <= |a| {
      AtFront(s, a, p, i);
    } else if i <= |a| {
      NoStraddle(s, |a|, p, i);
    } else {
      Shifted(s, |a| + 1, b, p, i);
    }
  }

  lemma ContainsAround(a: string, b: string, p: string)
    requires OneLine(p)
    ensures Contains(a + "\n" + b, p) <==> Contains(a, p) || Contains(b, p)
  {
    if Contains(a + "\n" + b, p) {
      var i :| At(a + "\n" + b, p, i);
      NewlineSplits(a, b, p, i);
    }
    if Contains(a, p) {
      var i :| At(a, p, i);
      NewlineSplits(a, b, p, i);
    }
    if Contains(b, p) {
      var i :| At(b, p, i);
      NewlineSplits(a, b, p, i + |a| + 1);
    }
  }

  /** A line between others stands between two newlines of the joined text. */
  lemma {:induction false} LineInside(lines: seq<string>, k: nat) returns (before: string, after: string)
    requires 0 < k < |lines| - 1
    ensures JoinLines(lines) == before + ("\n" + lines[k] + "\n") + after
  {
    var head, rest := lines[0], lines[1..];
    if k == 1 {
      before, after := head, JoinLines(rest[1..]);
      assert JoinLines(rest) == rest[0] + "\n" + after;
    } else {
      before, after := LineInside(rest, k - 1);
      assert head + "\n" + (before + ("\n" + lines[k] + "\n") + after)
          == (head + "\n" + before) + ("\n" + lines[k] + "\n") + after;
      before := head + "\n" + before;
    }
  }

  /** Two pieces of a file put back together, with a newline between them when both hold text. */
  function Rejoin(before: string, after: string): string {
    if before != "" && after != "" then before + "\n" + after
    else if before != "" then before else after
  }

  lemma ContainsRejoined(before: string, after: string, p: string)
    requires OneLine(p)
    ensures Contains(Rejoin(before, after), p) <==> Contains(before, p) || Contains(after, p)
  {
    ContainsAround(before, after, p);
    assert !Contains("", p);
  }

  lemma AtPrefix(s: string, n: nat, p: string, i: int)
    requires n <= |s|
    ensures At(s[..n], p, i) <==> At(s, p, i) && i + |p| <= n
  {
  }

  lemma AtSuffix(s: string, n: nat, p: string, i: int)
    requires n <= |s|
    ensures At(s[n..], p, i) <==> At(s, p, i + n) && i >= 0
  {
    Shifted(s, n, s[n..], p, i + n);
  }

  /** Trimming newlines keeps every occurrence of a one-line pattern. */
  lemma AtTrimEnd(s: string, p: string, i: int)
    requires OneLine(p)
    ensures At(TrimEnd(s), p, i) <==> At(s, p, i)
  {
    var r := TrimEnd(s);
    TrimEndDropsNewlines(s);
    if 0 <= i && |r| < i + |p| <= |s| {
      assert p[|p| - 1] in p && s[i + (|p| - 1)] == '\n';
    }
  }

  /** Newlines in front hold no one-line pattern. */
  lemma NewlinesInFront(s: string, n: nat, rest: string, p: string, i: int)
    requires OneLine(p)
    requires |s| == n + |rest| && forall j | 0 <= j < |rest| :: rest[j] == s[n + j]
    requires forall j | 0 <= j < n :: s[j] == '\n'
    ensures At(rest, p, i - n) <==> At(s, p, i)
  {
    Shifted(s, n, rest, p, i);
    if 0 <= i < n && i + |p| <= |s| {
      assert p[0] in p && s[i + 0] == s[i];
    }
  }

  lemma AtRest(s: string, from: nat, p: string, i: int)
    requires OneLine(p) && from <= |s|
    ensures var cut := |s| - from - |TrimStart(s[from..])|;
            At(TrimStart(s[from..]), p, i - from - cut) <==> At(s, p, i) && from <= i
  {
    var tail := s[from..];
    assert At(TrimStart(tail), p, i - from - (|tail| - |TrimStart(tail)|)) <==> At(tail, p, i - from) by {
      TrimStartDropsNewlines(tail);
      NewlinesInFront(tail, |tail| - |TrimStart(tail)|, TrimStart(tail), p, i - from);
    }
    assert At(tail, p, i - from) <==> At(s, p, i) && from <= i by {
      AtSuffix(s, from, p, i - from);
    }
  }

  /** A pattern occurs in the trimmed rest of a text exactly when the search from there finds it. */
  lemma ContainsInRest(s: string, from: nat, p: string)
    requires OneLine(p) && from <= |s|
    ensures Contains(TrimStart(s[from..]), p) <==> IndexOf(s, p, from) != -1
  {
    var rest := TrimStart(s[from..]);
    if Contains(rest, p) {
      var k :| At(rest, p, k);
      AtRest(s, from, p, k + |s| - |rest|);
    } else if IndexOf(s, p, from) != -1 {
      AtRest(s, from, p, IndexOf(s, p, from));
    }
  }

  /** Of two occurrences, the second is left after cutting at the first one found. */
  lemma SecondOccurrenceIsLeft(s: string, p: string, from: nat, a: nat, b: nat)
    requires OneLine(p) && from <= a && a + |p| <= b && At(s, p, a) && At(s, p, b)
    ensures from <= |s| && IndexOf(s, p, from) != -1
    ensures Contains(TrimStart(s[IndexOf(s, p, from) + |p|..]), p)
  {
    var r := IndexOf(s, p, from);
    assert r != -1 && r <= a;
    ContainsInRest(s, r + |p|, p);
  }

  /** A text without the part from `to` up to `from`, nor the newlines around it. */
  function CutOut(s: string, to: nat, from: nat): string
    requires to <= |s| && from <= |s|
  {
    Rejoin(TrimEnd(s[..to]), TrimStart(s[from..]))
  }

  lemma ContainsCutOut(s: string, p: string, to: nat, from: nat)
    requires OneLine(p) && to <= |s| && from <= |s|
    requires !Contains(TrimEnd(s[..to]), p)
    ensures Contains(CutOut(s, to, from), p) <==> IndexOf(s, p, from) != -1
  {
    ContainsInRest(s, from, p);
    ContainsRejoined(TrimEnd(s[..to]), TrimStart(s[from..]), p);
  }

  lemma ConcatAssociates(a: string, b: string, c: string)
    ensures a + b + c == a + (b + c)
  {
  }

  lemma {:induction false} LinesAvoid(lines: seq<string>, p: string)
    requires OneLine(p) && forall l <- lines :: !Contains(l, p)
    ensures !Contains(JoinLines(lines), p)
  {
    if |lines| > 1 {
      LinesAvoid(lines[1..], p);
      ContainsAround(lines[0], JoinLines(lines[1..]), p);
    }
  }

  lemma {:induction false} LinesContain(lines: seq<string>, k: nat, p: string)
    requires OneLine(p) && k < |lines| && Contains(lines[k], p)
    ensures Contains(JoinLines(lines), p)
  {
    if |lines| > 1 {
      if k > 0 {
        LinesContain(lines[1..], k - 1, p);
      }
      ContainsAround(lines[0], JoinLines(lines[1..]), p);
    }
  }

  lemma {:induction false} JoinLinesSnoc(lines: seq<string>, last: string)
    requires lines != []
    ensures JoinLines(lines + [last]) == JoinLines(lines) + "\n" + last
  {
    var all := lines + [last];
    assert all[1..] == lines[1..] + [last];
    if |lines| == 1 {
      assert all[1..] == [last];
    } else {
      JoinLinesSnoc(lines[1..], last);
    }
  }

  lemma TrimEndTwice(s: string)
    ensures TrimEnd(TrimEnd(s)) == TrimEnd(s)
  {
    TrimEndDropsNewlines(s);
  }

  lemma TrimEndNewlines(s: string)
    requires s == TrimEnd(s)
    ensures TrimEnd(s + "\n") == s && TrimEnd(s + "\n\n") == s
  {
    var one, two := s + "\n", s + "\n\n";
    assert one[..|one| - 1] == s && two[..|two| - 1] == one;
    assert TrimEnd(one) == TrimEnd(s);
    assert TrimEnd(two) == TrimEnd(one);
  }

  lemma PrefixOfConcat(a: string, b: string, c: string)
    ensures (a + b + c)[..|a|] == a
  {
  }

  predicate OnlyNewlines(s: string) { forall i | 0 <= i < |s| :: s[i] == '\n' }

  /** A text is its trimmed part and the newlines after it. */
  lemma TrimEndSplits(s: string) returns (newlines: string)
    ensures s == TrimEnd(s) + newlines && OnlyNewlines(newlines)
    ensures TrimEnd(s) == "" || TrimEnd(s)[|TrimEnd(s)| - 1] != '\n'
  {
    TrimEndDropsNewlines(s);
    newlines := s[|TrimEnd(s)|..];
    assert s == TrimEnd(s) + newlines;
  }

  /** A text is the newlines before its trimmed part and that part. */
  lemma TrimStartSplits(s: string) returns (newlines: string)
    ensures s == newlines + TrimStart(s) && OnlyNewlines(newlines)
    ensures TrimStart(s) == "" || TrimStart(s)[0] != '\n'
  {
    TrimStartDropsNewlines(s);
    newlines := s[..|s| - |TrimStart(s)|];
    assert s == newlines + TrimStart(s);
  }

  /** Trimming drops newlines put after a text that does not end in one, and only those. */
  lemma {:induction false} TrimEndOf(s: string, newlines: string)
    requires OnlyNewlines(newlines) && (s == "" || s[|s| - 1] != '\n')
    ensures TrimEnd(s + newlines) == s
  {
    if newlines == "" {
      assert s + newlines == s;
    } else {
      var front := newlines[..|newlines| - 1];
      assert (s + newlines)[..|s + newlines| - 1] == s + front;
      TrimEndOf(s, front);
    }
  }
}

/** The managed block of the hosts file: writing it, stripping it, and what repeated runs leave behind. */
module HostsFile {
  import opened Text
  import opened Lines

  const LOOPBACK := "127.0.0.1"

  function Entry(name: string): string { LOOPBACK + "\t" + name }

  /** The line that maps a name to the loopback address. */
  function NameLine(name: string): string { "\n127.0.0.1\t" + name + "\n" }

  lemma EntryLine(name: string)
    ensures "\n" + Entry(name) + "\n" == NameLine(name)
  {
    assert "\n" + (LOOPBACK + "\t") == "\n127.0.0.1\t";
    assert "\n" + Entry(name) == "\n" + (LOOPBACK + "\t") + name;
  }

  lemma Around(front: string, before: string, line: string, after: string, back: string, block: string)
    requires block == before + line + after
    ensures front + block + back == (front + before) + line + (after + back)
  {}

  function Entries(names: seq<string>): seq<string> {
    seq(|names|, i requires 0 <= i < |names| => Entry(names[i]))
  }

  datatype Action = Apply | Remove

  /** The begin and end markers of a managed block. */
  datatype Markers = Markers(begin: string, end: string) {

    /** All the proofs need of the two markers. */
    ghost predicate Valid() {
      OneLine(begin) && OneLine(end) && |end| >= 2 && end[0] == '#' && !Contains(begin, end)
    }

    /** `buildHostsBlock`. */
    function Block(names: seq<string>): string {
      JoinLines([begin] + Entries(names) + [end])
    }

    /** Offset of the first begin marker, or -1. */
    function First(content: string): int { IndexOf(content, begin, 0) }

    /** Offset of the end marker of the first block, or -1 when there is no whole block. */
    function Last(content: string): (r: int)
      ensures r != -1 ==> First(content) != -1 && First(content) <= r && At(content, end, r)
    {
      if First(content) == -1 then -1 else IndexOf(content, end, First(content))
    }

    /** `stripManagedBlock`. */
    function Strip(content: string): string {
      if Last(content) == -1 then content
      else CutOut(content, First(content), Last(content) + |end|)
    }

    /** What is left of the file outside the block. */
    function Kept(content: string): string { TrimEnd(Strip(content)) }

    /** `applyHostsContent`. */
    function Update(existing: string, names: seq<string>, action: Action): string {
      var stripped := Kept(existing);
      if action == Remove || names == [] then
        if stripped != "" then stripped + "\n" else ""
      else if stripped != "" then stripped + "\n\n" + Block(names) + "\n"
      else Block(names) + "\n"
    }

    /** A caller's check: no begin marker, or a first whole block with no begin marker after it. */
    predicate Clean(content: string) {
      First(content) == -1 || (Last(content) != -1 && IndexOf(content, begin, Last(content) + |end|) == -1)
    }

    // --- the condition -------------------------------------------------------------------------------

    lemma BeforeHasNoBegin(content: string)
      requires Valid() && Last(content) != -1
      ensures !Contains(TrimEnd(content[..First(content)]), begin)
    {
      forall i ensures !At(TrimEnd(content[..First(content)]), begin, i) {
        AtTrimEnd(content[..First(content)], begin, i);
        AtPrefix(content, First(content), begin, i);
      }
    }

    lemma StripIsCutOut(content: string)
      requires Last(content) != -1
      ensures Strip(content) == CutOut(content, First(content), Last(content) + |end|)
    {
    }

    lemma CutOutIsClean(content: string)
      requires Valid() && Last(content) != -1
      ensures Contains(CutOut(content, First(content), Last(content) + |end|), begin)
              <==> IndexOf(content, begin, Last(content) + |end|) != -1
    {
      BeforeHasNoBegin(content);
      ContainsCutOut(content, begin, First(content), Last(content) + |end|);
    }

    lemma CleanMeansStripped(content: string)
      requires Valid()
      ensures Clean(content) <==> !Contains(Strip(content), begin)
    {
      if Last(content) != -1 {
        StripIsCutOut(content);
        CutOutIsClean(content);
      }
    }

    /** Nothing kept holds a begin marker exactly when the content is clean. */
    lemma CleanMeansKept(content: string)
      requires Valid()
      ensures Clean(content) <==> !Contains(Kept(content), begin)
    {
      CleanMeansStripped(content);
      forall i ensures At(Kept(content), begin, i) <==> At(Strip(content), begin, i) {
        AtTrimEnd(Strip(content), begin, i);
      }
    }

    // --- the block as written ------------------------------------------------------------------------

    ghost predicate EndFree(names: seq<string>) { forall n <- names :: !Contains(n, end) }

    lemma EntryEndFree(name: string)
      requires Valid()
      ensures Contains(Entry(name), end) <==> Contains(name, end)
    {
      var prefix := LOOPBACK + "\t";
      assert Entry(name)[|prefix|..] == name;
      assert forall i | 0 <= i < |prefix| :: prefix[i] != '#';
      forall i ensures At(Entry(name), end, i) <==> At(name, end, i - |prefix|) {
        AtSuffix(Entry(name), |prefix|, end, i - |prefix|);
        if 0 <= i < |prefix| && i + |end| <= |Entry(name)| {
          assert Entry(name)[i..i + |end|][0] == prefix[i];
        }
      }
      if Contains(name, end) {
        var k :| At(name, end, k);
        assert At(Entry(name), end, k + |prefix|);
      }
    }

    /** Everything of the block before its last line. */
    function Body(names: seq<string>): string { JoinLines([begin] + Entries(names)) }

    lemma BlockShape(names: seq<string>)
      requires Valid()
      ensures Block(names) == Body(names) + "\n" + end
      ensures At(Block(names), begin, 0)
      ensures EndFree(names) ==> !Contains(Body(names), end)
    {
      var lines := [begin] + Entries(names);
      JoinLinesSnoc(lines, end);
      if EndFree(names) {
        forall l <- lines ensures !Contains(l, end) {
          if l != begin {
            var k :| 0 <= k < |names| && l == Entry(names[k]);
            EntryEndFree(names[k]);
          }
        }
        LinesAvoid(lines, end);
      }
    }

    /** The file a run writes around what it keeps. */
    function Written(kept: string, names: seq<string>): string {
      (if kept != "" then kept + "\n\n" else "") + Block(names) + "\n"
    }

    /** Where the block starts in the written file. */
    function Start(kept: string): nat { if kept != "" then |kept| + 2 else 0 }

    lemma WrittenOccurrences(kept: string, names: seq<string>, p: string, i: int)
      requires OneLine(p)
      ensures At(Written(kept, names), p, i) <==> At(kept, p, i) || At(Block(names), p, i - Start(kept))
    {
      var block := Block(names);
      var rest := block + "\n" + "";
      assert rest == block + "\n";
      NewlineSplits(block, "", p, i - Start(kept));
      if kept != "" {
        assert Written(kept, names) == kept + "\n" + ("" + "\n" + rest);
        NewlineSplits(kept, "" + "\n" + rest, p, i);
        NewlineSplits("", rest, p, i - |kept| - 1);
      } else {
        assert Written(kept, names) == rest;
      }
    }

    /** The end marker of a written block is the first one from any place after which nothing kept holds one. */
    lemma EndIsFound(kept: string, names: seq<string>, from: nat)
      requires Valid() && EndFree(names) && from <= Start(kept)
      requires forall i | from <= i :: !At(kept, end, i)
      ensures IndexOf(Written(kept, names), end, from) == Start(kept) + |Block(names)| - |end|
      ensures |Block(names)| >= |end|
    {
      BlockShape(names);
      var e := Start(kept) + |Block(names)| - |end|;
      forall i | from <= i <= e ensures At(Written(kept, names), end, i) <==> i == e {
        WrittenOccurrences(kept, names, end, i);
        NewlineSplits(Body(names), end, end, i - Start(kept));
      }
      IndexOfIs(Written(kept, names), end, from, e);
    }

    lemma BeginIsFound(kept: string, names: seq<string>)
      requires Valid() && !Contains(kept, begin)
      ensures First(Written(kept, names)) == Start(kept)
    {
      BlockShape(names);
      forall i | 0 <= i <= Start(kept) ensures At(Written(kept, names), begin, i) <==> i == Start(kept) {
        WrittenOccurrences(kept, names, begin, i);
      }
      IndexOfIs(Written(kept, names), begin, 0, Start(kept));
    }

    /** What stripping keeps of a written file, once its markers are found. */
    lemma StripWritten(kept: string, names: seq<string>)
      requires Last(Written(kept, names)) == Start(kept) + |Block(names)| - |end| != -1
      ensures Strip(Written(kept, names)) == TrimEnd(Written(kept, names)[..First(Written(kept, names))])
    {
      var w := Written(kept, names);
      assert w[Start(kept) + |Block(names)|..] == "\n";
      assert TrimStart("\n") == TrimStart("") == "";
    }

    /** A written block is stripped without a trace. */
    lemma WrittenIsStripped(kept: string, names: seq<string>)
      requires Valid() && kept == TrimEnd(kept) && !Contains(kept, begin) && EndFree(names)
      ensures Strip(Written(kept, names)) == kept
    {
      BeginIsFound(kept, names);
      EndIsFound(kept, names, Start(kept));
      StripWritten(kept, names);
      BeforeIsKept(kept, names);
    }

    // --- repeated runs -------------------------------------------------------------------------------

    lemma PlainIsKept(kept: string)
      requires Valid() && kept == TrimEnd(kept) && !Contains(kept, begin)
      ensures Kept(kept + "\n") == kept && Kept("") == ""
    {
      forall i ensures !At(kept + "\n", begin, i) {
        AppendedNewline(kept, begin, i);
      }
      TrimEndNewlines(kept);
      assert First("") == -1;
    }

    /** A run keeps exactly what the file held outside its block. */
    lemma KeptIsStable(content: string, names: seq<string>, action: Action)
      requires Valid() && Clean(content) && EndFree(names)
      ensures Kept(Update(content, names, action)) == Kept(content)
    {
      var kept := Kept(content);
      CleanMeansKept(content);
      TrimEndTwice(Strip(content));
      if action == Remove || names == [] {
        PlainIsKept(kept);
      } else {
        assert Update(content, names, action) == Written(kept, names);
        WrittenIsStripped(kept, names);
      }
    }

    /**
     * Runs are idempotent: on clean content and names without the end marker, a run after a run is the last
     * run alone; in particular removing after applying is removing.
     */
    lemma LastRunWins(content: string, first: seq<string>, action: Action, second: seq<string>, action': Action)
      requires Valid() && Clean(content) && EndFree(first)
      ensures Update(Update(content, first, action), second, action') == Update(content, second, action')
    {
      KeptIsStable(content, first, action);
    }

    lemma StripShortens(content: string)
      requires Last(content) != -1
      ensures |Strip(content)| + |end| <= |content| + 1
    {
    }

    lemma AppendedNewline(kept: string, p: string, i: int)
      requires OneLine(p)
      ensures At(kept + "\n", p, i) <==> At(kept, p, i)
    {
      assert kept + "\n" == kept + "\n" + "";
      NewlineSplits(kept, "", p, i);
    }

    /** A whole block left inside the kept text is stripped by the next run. */
    lemma WholeBlockIsNotStable(kept: string)
      requires Valid() && Last(kept) != -1
      ensures Kept(kept + "\n") != kept
    {
      forall p, i | p == begin || p == end ensures At(kept + "\n", p, i) <==> At(kept, p, i) {
        AppendedNewline(kept, p, i);
      }
      IndexOfIs(kept + "\n", begin, 0, First(kept));
      IndexOfIs(kept + "\n", end, First(kept), Last(kept));
      StripShortens(kept + "\n");
    }

    /** A lone begin marker left inside the kept text swallows what follows it, once a block is written. */
    lemma LoneBeginIsNotStable(kept: string, names: seq<string>)
      requires Valid() && EndFree(names) && First(kept) != -1 && Last(kept) == -1
      ensures Kept(Written(kept, names)) != kept
    {
      var w := Written(kept, names);
      var b := First(kept);
      forall i | 0 <= i <= b ensures At(w, begin, i) <==> At(kept, begin, i) {
        WrittenOccurrences(kept, names, begin, i);
      }
      IndexOfIs(w, begin, 0, b);
      EndIsFound(kept, names, b);
      StripWritten(kept, names);
    }

    /** On content that is not clean some run is not absorbed by the next. */
    lemma UncleanIsNotStable(content: string) returns (names: seq<string>)
      requires Valid() && !Clean(content)
      ensures EndFree(names) && Kept(Update(content, names, Apply)) != Kept(content)
    {
      var kept := Kept(content);
      CleanMeansKept(content);
      assert First(kept) != -1;
      if Last(kept) != -1 {
        names := [];
        WholeBlockIsNotStable(kept);
      } else {
        names := ["a"];
        assert !Contains("a", end);
        LoneBeginIsNotStable(kept, names);
        assert Update(content, names, Apply) == Written(kept, names);
      }
    }

    /** Runs are absorbed by later runs, whatever the names, exactly on clean content. */
    lemma IdempotentExactlyOnCleanContent(content: string)
      requires Valid()
      ensures Clean(content) <==>
              forall first: seq<string>, second: seq<string> | EndFree(first) ::
                Update(Update(content, first, Apply), second, Apply) == Update(content, second, Apply)
    {
      if Clean(content) {
        forall first: seq<string>, second: seq<string> | EndFree(first)
          ensures Update(Update(content, first, Apply), second, Apply) == Update(content, second, Apply)
        {
          LastRunWins(content, first, Apply, second, Apply);
        }
      } else {
        var names := UncleanIsNotStable(content);
        assert EndFree(names);
        KeptIsRecovered(Update(content, names, Apply), content);
      }
    }

    lemma KeptIsRecovered(a: string, b: string)
      ensures Update(a, [], Apply) == Update(b, [], Apply) ==> Kept(a) == Kept(b)
    {
      if Update(a, [], Apply) == Update(b, [], Apply) && Kept(a) != "" {
        assert Kept(a) == Update(a, [], Apply)[..|Update(a, [], Apply)| - 1];
      }
    }

    lemma BodyHoldsEnd(names: seq<string>) returns (j: int)
      requires Valid() && !EndFree(names)
      ensures At(Body(names), end, j) && 0 <= j && j + |end| <= |Body(names)|
    {
      var name :| name in names && Contains(name, end);
      var k :| 0 <= k < |names| && names[k] == name;
      EntryEndFree(name);
      LinesContain([begin] + Entries(names), k + 1, end);
      j :| At(Body(names), end, j);
    }

    lemma BlockHasTwoEnds(names: seq<string>, j: int)
      requires Valid() && At(Body(names), end, j)
      ensures At(Block(names), end, j) && At(Block(names), end, |Body(names)| + 1)
    {
      var body := Body(names);
      BlockShape(names);
      NewlineSplits(body, end, end, j);
      assert At(end, end, 0);
      NewlineSplits(body, end, end, |body| + 1);
    }

    lemma TwoEnds(kept: string, names: seq<string>, j: int)
      requires Valid() && At(Body(names), end, j)
      ensures At(Written(kept, names), end, Start(kept) + j)
      ensures At(Written(kept, names), end, Start(kept) + |Body(names)| + 1)
    {
      BlockHasTwoEnds(names, j);
      WrittenOccurrences(kept, names, end, Start(kept) + j);
      WrittenOccurrences(kept, names, end, Start(kept) + |Body(names)| + 1);
    }

    /** The block found is not the whole block: an end marker is left after it. */
    ghost predicate EndsEarly(w: string) {
      Last(w) != -1 && Contains(TrimStart(w[Last(w) + |end|..]), end)
    }

    lemma EarlyEndAt(w: string, start: nat, j: nat, body: nat)
      requires Valid() && First(w) == start && j + |end| <= body
      requires At(w, end, start + j) && At(w, end, start + body + 1)
      ensures EndsEarly(w)
    {
      SecondOccurrenceIsLeft(w, end, start, start + j, start + body + 1);
    }

    /** A name that holds the end marker ends the block early. */
    lemma EarlyEnd(kept: string, names: seq<string>)
      requires Valid() && !Contains(kept, begin) && !EndFree(names)
      ensures First(Written(kept, names)) == Start(kept) && EndsEarly(Written(kept, names))
    {
      BeginIsFound(kept, names);
      var j := BodyHoldsEnd(names);
      TwoEnds(kept, names, j);
      EarlyEndAt(Written(kept, names), Start(kept), j, |Body(names)|);
    }

    lemma RejoinedIsLonger(kept: string, after: string)
      requires Valid() && Contains(after, end)
      ensures TrimEnd(Rejoin(kept, after)) != kept
    {
      var j :| At(after, end, j);
      var i := if kept != "" then |kept| + 1 + j else j;
      NewlineSplits(kept, after, end, |kept| + 1 + j);
      assert At(Rejoin(kept, after), end, i);
      AtTrimEnd(Rejoin(kept, after), end, i);
    }

    lemma EarlyEndIsNotStable(content: string, names: seq<string>)
      requires Valid() && Clean(content) && names != [] && !EndFree(names)
      ensures Kept(Update(content, names, Apply)) != Kept(content)
    {
      var kept := Kept(content);
      var w := Written(kept, names);
      assert Update(content, names, Apply) == w;
      CleanMeansKept(content);
      TrimEndTwice(Strip(content));
      EarlyEnd(kept, names);
      BeforeIsKept(kept, names);
      RejoinedIsLonger(kept, TrimStart(w[Last(w) + |end|..]));
    }

    lemma BeforeIsKept(kept: string, names: seq<string>)
      requires kept == TrimEnd(kept)
      ensures |Written(kept, names)| >= Start(kept) && TrimEnd(Written(kept, names)[..Start(kept)]) == kept
    {
      PrefixOfConcat(if kept != "" then kept + "\n\n" else "", Block(names), "\n");
      TrimEndNewlines(kept);
    }

    /** On clean content a run is absorbed by every later run exactly when no name holds the end marker. */
    lemma AbsorbedExactlyWithoutEndMarkers(content: string, first: seq<string>)
      requires Valid() && Clean(content) && first != []
      ensures EndFree(first) <==>
              forall second: seq<string> ::
                Update(Update(content, first, Apply), second, Apply) == Update(content, second, Apply)
    {
      if EndFree(first) {
        forall second: seq<string>
          ensures Update(Update(content, first, Apply), second, Apply) == Update(content, second, Apply)
        {
          LastRunWins(content, first, Apply, second, Apply);
        }
      } else {
        EarlyEndIsNotStable(content, first);
        KeptIsRecovered(Update(content, first, Apply), content);
      }
    }

    /** A file that is a lone begin marker: the next block's strip takes the marker along. */
    lemma LoneBeginMarkerIsLost()
      requires Valid()
      ensures Update(Update(begin, ["a"], Apply), [], Apply) != Update(begin, [], Apply)
    {
      var names := ["a"];
      BeginStandsAlone();
      assert !Contains("a", end);
      LoneBeginIsNotStable(begin, names);
      assert Update(begin, names, Apply) == Written(begin, names);
      KeptIsRecovered(Update(begin, names, Apply), begin);
    }

    lemma BeginStandsAlone()
      requires Valid()
      ensures Kept(begin) == begin && begin != "" && First(begin) == 0 && Last(begin) == -1
    {
      assert At(begin, begin, 0);
      assert TrimEnd(begin) == begin;
    }

    /** A name that is the end marker itself: removing the block leaves its rest behind. */
    lemma EndMarkerAsNameIsNotRemoved()
      requires Valid()
      ensures Update(Update("", [end], Apply), [], Apply) != Update("", [], Apply)
    {
      assert At(end, end, 0);
      assert Contains([end][0], end);
      EarlyEndIsNotStable("", [end]);
      KeptIsRecovered(Update("", [end], Apply), "");
    }

    // --- what a run writes ---------------------------------------------------------------------------

    /** Applying writes one whole block, at the end of the file, and around it only what was kept. */
    lemma OneBlockIsWritten(content: string, names: seq<string>)
      requires Valid() && Clean(content) && EndFree(names) && names != []
      ensures var w := Update(content, names, Apply);
              && First(w) != -1 && Last(w) != -1 && Last(w) + |end| + 1 == |w| && w[|w| - 1] == '\n'
              && w[First(w)..Last(w) + |end|] == Block(names)
              && w[..First(w)] == (if Kept(content) == "" then "" else Kept(content) + "\n\n")
    {
      var kept := Kept(content);
      var front := if kept != "" then kept + "\n\n" else "";
      var w := Written(kept, names);
      CleanMeansKept(content);
      assert Update(content, names, Apply) == w;
      BeginIsFound(kept, names);
      EndIsFound(kept, names, Start(kept));
      assert w == front + (Block(names) + "\n") && |front| == Start(kept);
      assert w[..|front|] == front;
      assert w[|front|..] == Block(names) + "\n";
      assert w[|front|..|front| + |Block(names)|] == Block(names);
    }

    /** Removing leaves what was kept, as a file of lines, and no marker. */
    lemma NoBlockIsLeft(content: string, names: seq<string>)
      requires Valid() && Clean(content)
      ensures var w := Update(content, names, Remove);
              First(w) == -1 && w == if Kept(content) == "" then "" else Kept(content) + "\n"
    {
      CleanMeansKept(content);
      forall i ensures At(Kept(content) + "\n", begin, i) <==> At(Kept(content), begin, i) {
        AppendedNewline(Kept(content), begin, i);
      }
    }

    /** Every name gets a line of its own that maps it to the loopback address. */
    lemma EveryNameIsMapped(content: string, names: seq<string>, i: nat) returns (before: string, after: string)
      requires i < |names|
      ensures Update(content, names, Apply) == before + NameLine(names[i]) + after
    {
      var b, a := BlockHoldsName(names, i);
      var front := UpdateShape(content, names);
      Around(front, b, NameLine(names[i]), a, "\n", Block(names));
      before, after := front + b, a + "\n";
    }

    lemma UpdateShape(content: string, names: seq<string>) returns (front: string)
      requires names != []
      ensures Update(content, names, Apply) == front + Block(names) + "\n"
    {
      front := if Kept(content) != "" then Kept(content) + "\n\n" else "";
    }

    lemma BlockHoldsName(names: seq<string>, i: nat) returns (before: string, after: string)
      requires i < |names|
      ensures Block(names) == before + NameLine(names[i]) + after
    {
      var lines := [begin] + Entries(names) + [end];
      assert lines[i + 1] == Entry(names[i]);
      EntryLine(names[i]);
      before, after := LineInside(lines, i + 1);
    }

    // --- text outside the block ------------------------------------------------------------------------

    /**
     * A run keeps all text outside the first block, line breaks included. Without a block only trailing newlines
     * go. With one, what precedes and what follows it lose the newlines at the cuts and at the end of the file,
     * and are put back together with one newline.
     */
    lemma TextOutsideTheBlockIsKept(content: string)
      returns (before: string, after: string, n1: string, n2: string, n3: string)
      ensures OnlyNewlines(n1) && OnlyNewlines(n2) && OnlyNewlines(n3)
      ensures before == "" || before[|before| - 1] != '\n'
      ensures after == "" || (after[0] != '\n' && after[|after| - 1] != '\n')
      ensures if Last(content) == -1 then
                content == before + n1 && after == "" && Kept(content) == before
              else
                && content[..First(content)] == before + n1
                && content[Last(content) + |end|..] == n2 + (after + n3)
                && Kept(content) == Rejoin(before, after)
    {
      if Last(content) == -1 {
        n1 := TrimEndSplits(content);
        before, after, n2, n3 := TrimEnd(content), "", "", "";
      } else {
        var rest := content[Last(content) + |end|..];
        n1 := TrimEndSplits(content[..First(content)]);
        n2 := TrimStartSplits(rest);
        n3 := TrimEndSplits(TrimStart(rest));
        before, after := TrimEnd(content[..First(content)]), TrimEnd(TrimStart(rest));
        RejoinedIsTrimmed(before, after, n3);
      }
    }

    /** Trimming what was put back together trims its last part. */
    lemma RejoinedIsTrimmed(before: string, after: string, newlines: string)
      requires OnlyNewlines(newlines)
      requires before == "" || before[|before| - 1] != '\n'
      requires after == "" || after[|after| - 1] != '\n'
      requires after + newlines == "" || (after + newlines)[0] != '\n'
      ensures TrimEnd(Rejoin(before, after + newlines)) == Rejoin(before, after)
    {
      if after + newlines == "" {
        assert |after| == 0;
        TrimEndOf(before, "");
        assert before + "" == before;
      } else {
        assert after != "";
        assert before + "\n" + (after + newlines) == before + "\n" + after + newlines;
        TrimEndOf(before + "\n" + after, newlines);
        TrimEndOf(after, newlines);
      }
    }
  }

  /** The markers of the managed block. */
  const MANAGED := Markers("# entra-local BEGIN", "# entra-local END")

  /** A capital that only the end of a marker's text holds: no marker starts inside the other. */
  lemma NotInside(b: string, e: string)
    requires |b| == 19 && |e| == 17 && e[0] == '#' && e[14] == 'E'
    requires b[1] != '#' && b[2] != '#' && b[14] != 'E'
    ensures !Contains(b, e)
  {
    forall i ensures !At(b, e, i) {
      assert 0 <= i <= 2 ==> e[0] != b[i] || e[14] != b[i + 14];
    }
  }

  lemma ManagedMarkersAreValid()
    ensures MANAGED.Valid()
  {
    var b, e := MANAGED.begin, MANAGED.end;
    assert b[1] == ' ' && b[2] == 'e' && b[14] == 'B';
    assert e[0] == '#' && e[14] == 'E';
    NotInside(b, e);
  }
}
