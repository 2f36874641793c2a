/** Strings as the source uses them: splitting, joining, searching, and the nullable column. */
module Text {

  /** A nullable value: a database column, an optional parameter or an optional field. */
  datatype Option<+T> = None | Some(value: T)

  /** `parts.join(' ')`. */
  function Join(parts: seq<string>): string {
    if |parts| == 0 then ""
    else if |parts| == 1 then parts[0]
    else parts[0] + " " + Join(parts[1..])
  }

  /** `s.split(' ')`: always at least one part. */
  function Split(s: string): (parts: seq<string>)
    ensures |parts| >= 1
    ensures forall p <- parts :: ' ' !in p
  {
    if s == "" then [""]
    else
      var rest := Split(s[1..]);
      if s[0] == ' ' then [""] + rest
      else [[s[0]] + rest[0]] + rest[1..]
  }

  /** How stored scopes are read back: the empty column is the empty list. */
  function ReadScopes(column: string): seq<string> {
    if |column| > 0 then Split(column) else []
  }

  lemma {:induction false} SplitPrefix(word: string, rest: string)
    requires ' ' !in word
    ensures Split(word + " " + rest) == [word] + Split(rest)
  {
    var s := word + " " + rest;
    if word == "" {
      assert s[1..] == rest;
    } else {
      assert s[1..] == word[1..] + " " + rest;
      assert forall c <- word[1..] :: c in word;
      SplitPrefix(word[1..], rest);
      assert [word[0]] + word[1..] == word;
    }
  }

  lemma {:induction false} SplitWord(word: string)
    requires ' ' !in word
    ensures Split(word) == [word]
  {
    if word != "" {
      SplitWord(word[1..]);
      assert [word[0]] + word[1..] == word;
    }
  }

  lemma {:induction false} SplitJoin(parts: seq<string>)
    requires |parts| >= 1
    requires forall p <- parts :: ' ' !in p
    ensures Split(Join(parts)) == parts
  {
    if |parts| == 1 {
      SplitWord(parts[0]);
    } else {
      SplitJoin(parts[1..]);
      SplitPrefix(parts[0], Join(parts[1..]));
    }
  }

  /** Storing a scope list and reading it back is lossless exactly for space-free lists other than `[""]`. */
  lemma StoredScopesRoundTrip(scopes: seq<string>)
    ensures ReadScopes(Join(scopes)) == scopes
            <==> (forall s <- scopes :: ' ' !in s) && scopes != [""]
  {
    if (forall s <- scopes :: ' ' !in s) && |scopes| >= 1 && scopes != [""] {
      SplitJoin(scopes);
    }
  }

  /** Reading back never invents a scope, whatever space-free list was stored. */
  lemma StoredScopesShrink(scopes: seq<string>)
    requires forall s <- scopes :: ' ' !in s
    ensures forall s <- ReadScopes(Join(scopes)) :: s in scopes
  {
    StoredScopesRoundTrip(scopes);
  }

  // --- substring search -------------------------------------------------------------------

  /** `pattern` occurs in `s` at offset `i`. */
  predicate At(s: string, pattern: string, i: int) {
    0 <= i && i + |pattern| <= |s| && forall k | 0 <= k < |pattern| :: pattern[k] == s[i + k]
  }

  ghost predicate Contains(s: string, pattern: string) {
    exists i :: At(s, pattern, i)
  }

  /** `s.indexOf(pattern, from)`: the first occurrence at or after `from`, or -1. */
  function IndexOf(s: string, pattern: string, from: nat): (r: int)
    requires from <= |s|
    ensures r == -1 || (from <= r && At(s, pattern, r))
    ensures forall i | from <= i && (r == -1 || i < r) :: !At(s, pattern, i)
    decreases |s| - from
  {
    if At(s, pattern, from) then from
    else if from == |s| then -1
    else IndexOf(s, pattern, from + 1)
  }

  /** `s.lastIndexOf(c)` for a single character. */
  function LastIndexOf(s: string, c: char): (r: int)
    ensures r == -1 || (0 <= r < |s| && s[r] == c)
    ensures forall i | r < i < |s| :: s[i] != c
  {
    if s == "" then -1
    else if s[|s| - 1] == c then |s| - 1
    else LastIndexOf(s[..|s| - 1], c)
  }

  predicate StartsWith(s: string, prefix: string) { prefix <= s }

  // --- letter case ------------------------------------------------------------------------

  /** Lower case of an ASCII letter; every other character stands for itself. */
  function Fold(c: char): char {
    if 'A' <= c <= 'Z' then (c as int + 32) as char else c
  }

  /** Folding identifies a capital with its small letter and nothing else. */
  lemma FoldMeans(a: char, b: char)
    ensures Fold(a) == Fold(b) <==>
              || a == b
              || ('A' <= a <= 'Z' && b as int == a as int + 'a' as int - 'A' as int)
              || ('A' <= b <= 'Z' && a as int == b as int + 'a' as int - 'A' as int)
    ensures !('A' <= Fold(a) <= 'Z')
  {}

  /** `toLowerCase()` on the characters that matter here: no other character lowers to an ASCII capital. */
  function LowerCase(s: string): string { seq(|s|, i requires 0 <= i < |s| => Fold(s[i])) }
}

/** Token hashing, shared by the tables that store opaque tokens hashed. */
module Hashing {

  /** SHA-256 of an opaque token, taken to be collision-free: a free constructor. */
  datatype Hash = Sha256(plaintext: string)
}
