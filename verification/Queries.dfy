/** `encodeURIComponent` and its inverse, over the UTF-8 bytes of a character. */
module Percent {
  import opened Text

  type byte = b: int | 0 <= b < 256

  /** The characters `encodeURIComponent` leaves alone. */
  predicate Unreserved(c: char) {
    'a' <= c <= 'z' || 'A' <= c <= 'Z' || '0' <= c <= '9' || c in ['-', '_', '.', '!', '~', '*', '\'', '(', ')']
  }

  function Utf8(c: char): seq<byte> {
    var n := c as int;
    if n < 0x80 then [n]
    else if n < 0x800 then [0xC0 + n / 64, 0x80 + n % 64]
    else if n < 0x10000 then [0xE0 + n / 4096, 0x80 + n / 64 % 64, 0x80 + n % 64]
    else [0xF0 + n / 262144, 0x80 + n / 4096 % 64, 0x80 + n / 64 % 64, 0x80 + n % 64]
  }

  function HexDigit(d: nat): char
    requires d < 16
  {
    if d < 10 then ('0' as int + d) as char else ('A' as int + d - 10) as char
  }

  function HexValue(c: char): Option<nat> {
    if '0' <= c <= '9' then Some(c as int - '0' as int)
    else if 'A' <= c <= 'F' then Some(c as int - 'A' as int + 10)
    else if 'a' <= c <= 'f' then Some(c as int - 'a' as int + 10)
    else None
  }

  function EncodeByte(b: byte): string { ['%', HexDigit(b / 16), HexDigit(b % 16)] }

  function EncodeBytes(bytes: seq<byte>): string {
    if bytes == [] then "" else EncodeByte(bytes[0]) + EncodeBytes(bytes[1..])
  }

  function EncodeChar(c: char): string { if Unreserved(c) then [c] else EncodeBytes(Utf8(c)) }

  function Encode(s: string): string { if s == "" then "" else EncodeChar(s[0]) + Encode(s[1..]) }

  /** The byte an escape at the head of `s` stands for. */
  function DecodeByte(s: string): (b: Option<byte>)
    ensures b.Some? ==> |s| >= 3
  {
    if |s| >= 3 && s[0] == '%' && HexValue(s[1]).Some? && HexValue(s[2]).Some?
    then Some(16 * HexValue(s[1]).value + HexValue(s[2]).value)
    else None
  }

  /** `count` escaped continuation bytes at the head of `s`, after the bits `high`. */
  function Continue(s: string, count: nat, high: nat): (n: Option<nat>)
    ensures n.Some? ==> |s| >= 3 * count
  {
    if count == 0 then Some(high)
    else
      match DecodeByte(s)
      case Some(b) => if 0x80 <= b < 0xC0 then Continue(s[3..], count - 1, high * 64 + b - 0x80) else None
      case None => None
  }

  /** Number of continuation bytes a first byte announces, the bits it carries and the least value so encoded. */
  function Lead(b: byte): Option<(nat, nat, nat)> {
    if b < 0x80 then Some((0, b, 0))
    else if 0xC0 <= b < 0xE0 then Some((1, b - 0xC0, 0x80))
    else if 0xE0 <= b < 0xF0 then Some((2, b - 0xE0, 0x800))
    else if 0xF0 <= b < 0xF8 then Some((3, b - 0xF0, 0x10000))
    else None
  }

  /** The escaped character at the head of `s`, and the length of its escapes; overlong forms and surrogates fail. */
  function DecodeChar(s: string): (r: Option<(char, nat)>)
    ensures r.Some? ==> 0 < r.value.1 <= |s|
  {
    var first := DecodeByte(s);
    if first.None? || Lead(first.value).None? then None
    else
      var (count, high, least) := Lead(first.value).value;
      match Continue(s[3..], count, high)
      case None => None
      case Some(n) =>
        if least <= n < 0x11_0000 && !(0xD800 <= n < 0xE000) then Some((n as char, 3 * (1 + count))) else None
  }

  /** Decoding of a query component: `+` is a space, malformed escapes fail. */
  function Decode(s: string): Option<string> {
    if s == "" then Some("")
    else if s[0] == '%' then
      match DecodeChar(s)
      case None => None
      case Some((c, length)) => (match Decode(s[length..]) case Some(rest) => Some([c] + rest) case None => None)
    else
      match Decode(s[1..])
      case Some(rest) => Some([if s[0] == '+' then ' ' else s[0]] + rest)
      case None => None
  }

  lemma ByteRoundTrip(b: byte, rest: string)
    ensures DecodeByte(EncodeByte(b) + rest) == Some(b)
    ensures (EncodeByte(b) + rest)[3..] == rest
  {}

  predicate Continuations(bytes: seq<byte>) { forall k | 0 <= k < |bytes| :: 0x80 <= bytes[k] < 0xC0 }

  /** Continuation bytes are read back, most significant first. */
  lemma {:induction false} ContinueRoundTrip(bytes: seq<byte>, high: nat, rest: string)
    requires Continuations(bytes)
    ensures |EncodeBytes(bytes)| == 3 * |bytes|
    ensures Continue(EncodeBytes(bytes) + rest, |bytes|, high) == Some(Bits(bytes, high))
  {
    if bytes == [] {
      assert EncodeBytes(bytes) + rest == rest;
    } else {
      var b := bytes[0];
      var tail := EncodeBytes(bytes[1..]) + rest;
      assert EncodeBytes(bytes) + rest == EncodeByte(b) + tail;
      ByteRoundTrip(b, tail);
      ContinueRoundTrip(bytes[1..], high * 64 + b - 0x80, rest);
    }
  }

  function Bits(bytes: seq<byte>, high: nat): nat
    requires Continuations(bytes)
  {
    if bytes == [] then high else Bits(bytes[1..], high * 64 + bytes[0] - 0x80)
  }

  predicate IsContinuation(b: byte) { 0x80 <= b < 0xC0 }

  lemma BitsOfOne(x: byte, high: nat)
    requires IsContinuation(x)
    ensures Bits([x], high) == high * 64 + x - 0x80
  {
    assert Bits([x][1..], high * 64 + x - 0x80) == high * 64 + x - 0x80;
  }

  lemma BitsOfTwo(x: byte, y: byte, high: nat)
    requires IsContinuation(x) && IsContinuation(y)
    ensures Bits([x, y], high) == (high * 64 + x - 0x80) * 64 + y - 0x80
  {
    assert [x, y][1..] == [y];
    BitsOfOne(y, high * 64 + x - 0x80);
  }

  lemma BitsOfThree(x: byte, y: byte, z: byte, high: nat)
    requires IsContinuation(x) && IsContinuation(y) && IsContinuation(z)
    ensures Bits([x, y, z], high) == ((high * 64 + x - 0x80) * 64 + y - 0x80) * 64 + z - 0x80
  {
    assert [x, y, z][1..] == [y, z];
    BitsOfTwo(y, z, high * 64 + x - 0x80);
  }

  lemma SixBits(n: nat)
    ensures n / 64 / 64 == n / 4096 && n / 4096 / 64 == n / 262144
    ensures n == n / 64 * 64 + n % 64
    ensures n / 64 == n / 4096 * 64 + n / 64 % 64
    ensures n / 4096 == n / 262144 * 64 + n / 4096 % 64
  {}

  /** A first byte announces the others, and their bits give the code point back. */
  ghost predicate Spells(bytes: seq<byte>, n: nat) {
    && bytes != [] && Continuations(bytes[1..]) && Lead(bytes[0]).Some?
    && var (count, high, least) := Lead(bytes[0]).value;
       count == |bytes| - 1 && least <= n && Bits(bytes[1..], high) == n
  }

  lemma SpellsTwo(n: nat)
    requires 0x80 <= n < 0x800
    ensures Spells([0xC0 + n / 64, 0x80 + n % 64], n)
  {
    var first, z := 0xC0 + n / 64, 0x80 + n % 64;
    SixBits(n);
    BitsOfOne(z, n / 64);
    assert [first, z][1..] == [z];
  }

  lemma SpellsThree(n: nat)
    requires 0x800 <= n < 0x10000
    ensures Spells([0xE0 + n / 4096, 0x80 + n / 64 % 64, 0x80 + n % 64], n)
  {
    SixBits(n);
    var high, y, z := n / 4096, n / 64 % 64, n % 64;
    BitsOfTwo(0x80 + y, 0x80 + z, high);
    var bytes: seq<byte> := [0xE0 + high, 0x80 + y, 0x80 + z];
    assert bytes[1..] == [0x80 + y, 0x80 + z];
  }

  lemma SpellsFour(n: nat)
    requires 0x10000 <= n < 0x110000
    ensures Spells([0xF0 + n / 262144, 0x80 + n / 4096 % 64, 0x80 + n / 64 % 64, 0x80 + n % 64], n)
  {
    SixBits(n);
    var high, x, y, z := n / 262144, n / 4096 % 64, n / 64 % 64, n % 64;
    BitsOfThree(0x80 + x, 0x80 + y, 0x80 + z, high);
    var bytes: seq<byte> := [0xF0 + high, 0x80 + x, 0x80 + y, 0x80 + z];
    assert bytes[1..] == [0x80 + x, 0x80 + y, 0x80 + z];
  }

  lemma Utf8Spells(c: char)
    ensures Spells(Utf8(c), c as int)
  {
    var n := c as int;
    if 0x80 <= n < 0x800 {
      SpellsTwo(n);
    } else if 0x800 <= n < 0x10000 {
      SpellsThree(n);
    } else if 0x10000 <= n {
      SpellsFour(n);
    }
  }

  lemma CharRoundTrip(c: char, rest: string)
    ensures var escaped := EncodeBytes(Utf8(c));
            && |escaped| >= 3 && escaped[0] == '%'
            && DecodeChar(escaped + rest) == Some((c, |escaped|))
  {
    var bytes := Utf8(c);
    Utf8Spells(c);
    var tail := EncodeBytes(bytes[1..]) + rest;
    assert EncodeBytes(bytes) + rest == EncodeByte(bytes[0]) + tail;
    ByteRoundTrip(bytes[0], tail);
    ContinueRoundTrip(bytes[1..], Lead(bytes[0]).value.1, rest);
  }

  /** Decoding inverts encoding on every string. */
  lemma {:induction false} EncodeRoundTrip(s: string)
    ensures Decode(Encode(s)) == Some(s)
  {
    if s != "" {
      EncodeRoundTrip(s[1..]);
      assert [s[0]] + s[1..] == s;
      FirstDecodes(s[0], Encode(s[1..]), s[1..]);
    }
  }

  lemma FirstDecodes(c: char, rest: string, decoded: string)
    requires Decode(rest) == Some(decoded)
    ensures Decode(EncodeChar(c) + rest) == Some([c] + decoded)
  {
    var text := EncodeChar(c) + rest;
    if !Unreserved(c) {
      CharRoundTrip(c, rest);
      assert text[|EncodeChar(c)|..] == rest;
    } else {
      assert text[1..] == rest;
    }
  }

  /** The delimiters of a URL never occur in an encoded component. */
  predicate Delimiter(c: char) { c in ['&', '=', '+', '#', '?', '/', ' '] }

  lemma {:induction false} EncodedBytesAreSafe(bytes: seq<byte>)
    ensures forall c <- EncodeBytes(bytes) :: !Delimiter(c)
  {
    if bytes != [] {
      EncodedBytesAreSafe(bytes[1..]);
    }
  }

  lemma {:induction false} EncodedIsSafe(s: string)
    ensures forall c <- Encode(s) :: !Delimiter(c)
  {
    if s != "" {
      EncodedBytesAreSafe(Utf8(s[0]));
      EncodedIsSafe(s[1..]);
    }
  }
}

/** Query strings: how the server reads them. */
module QueryStrings {
  import opened Text
  import opened Percent
  import opened GraphUrls

  /** One key of the parsed query with its values: one, or the array of a repeated key. */
  datatype Entry = Entry(key: string, values: seq<string>)

  type Query = seq<Entry>

  function Spaces(raw: string): string {
    seq(|raw|, i requires 0 <= i < |raw| => if raw[i] == '+' then ' ' else raw[i])
  }

  /** A decoded component; one that does not decode keeps its escapes, its plus signs still read as spaces. */
  function Component(raw: string): string {
    match Decode(raw)
    case Some(s) => s
    case None => Spaces(raw)
  }

  function Pair(piece: string): (string, string) {
    var key := UpTo(piece, '=');
    (Component(key), if |key| < |piece| then Component(piece[|key| + 1..]) else "")
  }

  /** The pairs of a query string in order; empty pieces are skipped. */
  function Pairs(qs: string): seq<(string, string)>
    decreases |qs|
  {
    if qs == "" then []
    else
      var piece := UpTo(qs, '&');
      var rest := if |piece| < |qs| then Pairs(qs[|piece| + 1..]) else [];
      (if piece == "" then [] else [Pair(piece)]) + rest
  }

  /** Store one more value under its key. */
  function Add(query: Query, key: string, value: string): Query {
    if query == [] then [Entry(key, [value])]
    else if query[0].key == key then [Entry(key, query[0].values + [value])] + query[1..]
    else [query[0]] + Add(query[1..], key, value)
  }

  function AddAll(query: Query, pairs: seq<(string, string)>): Query
    decreases |pairs|
  {
    if pairs == [] then query else AddAll(Add(query, pairs[0].0, pairs[0].1), pairs[1..])
  }

  function Parse(qs: string): Query { AddAll([], Pairs(qs)) }

  /** `firstValue(query[key])`. */
  function First(query: Query, key: string): Option<string> {
    if query == [] then None
    else if query[0].key == key then (if query[0].values == [] then None else Some(query[0].values[0]))
    else First(query[1..], key)
  }

  /** Keys differ and every key has a value. */
  ghost predicate Grouped(query: Query) {
    && (forall i, j | 0 <= i < j < |query| :: query[i].key != query[j].key)
    && forall i | 0 <= i < |query| :: query[i].values != []
  }

  function ValuePairs(key: string, values: seq<string>): seq<(string, string)> {
    if values == [] then [] else [(key, values[0])] + ValuePairs(key, values[1..])
  }

  function Flatten(query: Query): seq<(string, string)> {
    if query == [] then [] else ValuePairs(query[0].key, query[0].values) + Flatten(query[1..])
  }

  /** No key appears that was neither there nor added. */
  lemma {:induction false} AddAvoids(query: Query, key: string, value: string, k: string)
    requires key != k && forall i | 0 <= i < |query| :: query[i].key != k
    ensures forall i | 0 <= i < |Add(query, key, value)| :: Add(query, key, value)[i].key != k
  {
    if query != [] && query[0].key != key {
      AddAvoids(query[1..], key, value, k);
    }
  }

  lemma {:induction false} AddKeepsGrouping(query: Query, key: string, value: string)
    requires Grouped(query)
    ensures Grouped(Add(query, key, value))
  {
    if query == [] {
    } else if query[0].key == key {
      var all := Add(query, key, value);
      assert forall i | 0 <= i < |query| :: all[i].key == query[i].key;
      assert forall i | 1 <= i < |query| :: all[i] == query[i];
    } else {
      AddKeepsGrouping(query[1..], key, value);
      AddAvoids(query[1..], key, value, query[0].key);
    }
  }

  lemma {:induction false} AddAllGroups(query: Query, pairs: seq<(string, string)>)
    requires Grouped(query)
    ensures Grouped(AddAll(query, pairs))
    decreases |pairs|
  {
    if pairs != [] {
      AddKeepsGrouping(query, pairs[0].0, pairs[0].1);
      AddAllGroups(Add(query, pairs[0].0, pairs[0].1), pairs[1..]);
    }
  }

  lemma {:induction false} AddToLast(query: Query, last: Entry, value: string)
    requires Grouped(query + [last])
    ensures Add(query + [last], last.key, value) == query + [Entry(last.key, last.values + [value])]
  {
    if query != [] {
      var all := query + [last];
      assert all[0].key != all[|query|].key;
      assert all[1..] == query[1..] + [last];
      forall i, j | 0 <= i < j < |all| - 1 ensures all[1..][i].key != all[1..][j].key {
        assert all[i + 1].key != all[j + 1].key;
      }
      AddToLast(query[1..], last, value);
    }
  }

  lemma {:induction false} AddNew(query: Query, key: string, value: string)
    requires forall e <- query :: e.key != key
    ensures Add(query, key, value) == query + [Entry(key, [value])]
  {
    if query != [] {
      AddNew(query[1..], key, value);
      assert query == [query[0]] + query[1..];
    }
  }

  lemma {:induction false} AddAllConcat(query: Query, a: seq<(string, string)>, b: seq<(string, string)>)
    ensures AddAll(query, a + b) == AddAll(AddAll(query, a), b)
    decreases |a|
  {
    if a == [] {
      assert a + b == b;
    } else {
      assert (a + b)[1..] == a[1..] + b;
      AddAllConcat(Add(query, a[0].0, a[0].1), a[1..], b);
    }
  }

  lemma ReplaceLast(query: Query, a: Entry, b: Entry)
    requires Grouped(query + [a]) && a.key == b.key && b.values != []
    ensures Grouped(query + [b])
  {
    var before, after := query + [a], query + [b];
    assert forall i | 0 <= i < |after| :: after[i].key == before[i].key;
    assert forall i | 0 <= i < |query| :: after[i] == before[i];
  }

  lemma {:induction false} AddValues(query: Query, last: Entry, values: seq<string>)
    requires Grouped(query + [last])
    ensures AddAll(query + [last], ValuePairs(last.key, values)) == query + [Entry(last.key, last.values + values)]
    decreases |values|
  {
    if values == [] {
      assert last.values + values == last.values;
    } else {
      AddToLast(query, last, values[0]);
      var longer := Entry(last.key, last.values + [values[0]]);
      ReplaceLast(query, last, longer);
      AddValues(query, longer, values[1..]);
      assert longer.values + values[1..] == last.values + values;
    }
  }

  /** Writing a grouped query out value by value and reading it again groups it the same way. */
  lemma {:induction false} RegroupAfter(done: Query, query: Query)
    requires Grouped(done + query)
    ensures AddAll(done, Flatten(query)) == done + query
    decreases |query|
  {
    if query == [] {
    } else {
      var e, rest := query[0], query[1..];
      var all := done + query;
      assert all == done + [e] + rest;
      assert all[|done|] == e;
      forall d | d in done ensures d.key != e.key {
        var i :| 0 <= i < |done| && done[i] == d;
        assert all[i].key != all[|done|].key;
      }
      AddNew(done, e.key, e.values[0]);
      assert ValuePairs(e.key, e.values) == [(e.key, e.values[0])] + ValuePairs(e.key, e.values[1..]);
      var one := Entry(e.key, [e.values[0]]);
      GroupedPrefix(done + [e], rest);
      ReplaceLast(done, e, one);
      AddValues(done, one, e.values[1..]);
      assert one.values + e.values[1..] == e.values;
      AddAllConcat(done, ValuePairs(e.key, e.values), Flatten(rest));
      RegroupAfter(done + [e], rest);
    }
  }

  lemma GroupedPrefix(a: Query, b: Query)
    requires Grouped(a + b)
    ensures Grouped(a)
  {
    assert forall i | 0 <= i < |a| :: a[i] == (a + b)[i];
  }

  // --- writing a query ----------------------------------------------------------------------

  /** Keys go out unescaped: exactly these are read back, free of delimiters and changed by no decoding. */
  predicate Survives(key: string) { '&' !in key && '=' !in key && '#' !in key && Component(key) == key }

  function Piece(key: string, value: string): string { key + "=" + Encode(value) }

  /** `parts.join('&')`. */
  function JoinPieces(pieces: seq<string>): string {
    if |pieces| == 0 then ""
    else if |pieces| == 1 then pieces[0]
    else pieces[0] + "&" + JoinPieces(pieces[1..])
  }

  function Pieces(pairs: seq<(string, string)>): seq<string> {
    if pairs == [] then [] else [Piece(pairs[0].0, pairs[0].1)] + Pieces(pairs[1..])
  }

  ghost predicate SurvivingKeys(pairs: seq<(string, string)>) {
    forall i | 0 <= i < |pairs| :: Survives(pairs[i].0)
  }

  ghost predicate SurvivingQuery(query: Query) { forall i | 0 <= i < |query| :: Survives(query[i].key) }

  /** Without escapes a component decodes to itself but for its plus signs, which are spaces. */
  lemma {:induction false} PlusIsSpace(raw: string)
    requires '%' !in raw
    ensures |Component(raw)| == |raw|
    ensures forall i | 0 <= i < |raw| :: Component(raw)[i] == if raw[i] == '+' then ' ' else raw[i]
    ensures Decode(raw).Some?
  {
    if raw != "" {
      PlusIsSpace(raw[1..]);
    }
  }

  lemma {:induction false} PlainDecodes(key: string)
    requires '%' !in key && '+' !in key
    ensures Decode(key) == Some(key)
  {
    if key != "" {
      assert key[0] in key && forall c <- key[1..] :: c in key;
      PlainDecodes(key[1..]);
      assert [key[0]] + key[1..] == key;
    }
  }

  lemma PairOf(key: string, raw: string)
    requires '=' !in key
    ensures Pair(key + "=" + raw) == (Component(key), Component(raw))
  {
    var piece := key + "=" + raw;
    UpToSplits(key, '=', "=" + raw);
    assert piece == key + ("=" + raw);
    assert piece[|key| + 1..] == raw;
  }

  lemma PieceRoundTrip(key: string, value: string)
    requires Survives(key)
    ensures Pair(Piece(key, value)) == (key, value)
  {
    var encoded := Encode(value);
    PairOf(key, encoded);
    EncodeRoundTrip(value);
  }

  lemma PieceIsSafe(key: string, value: string)
    requires '&' !in key && '#' !in key
    ensures forall c <- Piece(key, value) :: c != '&' && c != '#'
  {
    EncodedIsSafe(value);
  }

  lemma FirstPiece(piece: string, rest: string)
    requires piece != "" && '&' !in piece
    ensures Pairs(piece) == [Pair(piece)]
    ensures Pairs(piece + "&" + rest) == [Pair(piece)] + Pairs(rest)
  {
    UpToSplits(piece, '&', "");
    assert piece + "" == piece;
    UpToSplits(piece, '&', "&" + rest);
    assert piece + ("&" + rest) == piece + "&" + rest;
    assert (piece + "&" + rest)[|piece| + 1..] == rest;
  }

  /** A query written with escaped values reads back to the same pairs, whatever the values hold. */
  lemma {:induction false} PairsRoundTrip(pairs: seq<(string, string)>)
    requires SurvivingKeys(pairs)
    ensures Pairs(JoinPieces(Pieces(pairs))) == pairs
  {
    if pairs != [] {
      var (key, value) := pairs[0];
      var piece, rest := Piece(key, value), Pieces(pairs[1..]);
      PieceRoundTrip(key, value);
      PieceIsSafe(key, value);
      assert |piece| >= 1;
      FirstPiece(piece, JoinPieces(rest));
      PairsRoundTrip(pairs[1..]);
      assert [pairs[0]] + pairs[1..] == pairs;
    }
  }

  /** A written query holds no fragment mark, so a client sends all of it. */
  lemma {:induction false} QueryIsSafe(pairs: seq<(string, string)>)
    requires SurvivingKeys(pairs)
    ensures '#' !in JoinPieces(Pieces(pairs))
  {
    if pairs != [] {
      PieceIsSafe(pairs[0].0, pairs[0].1);
      QueryIsSafe(pairs[1..]);
    }
  }

  lemma {:induction false} ValuePairsSurvive(key: string, values: seq<string>)
    requires Survives(key)
    ensures SurvivingKeys(ValuePairs(key, values))
  {
    if values != [] {
      ValuePairsSurvive(key, values[1..]);
    }
  }

  lemma {:induction false} FlattenSurvives(query: Query)
    requires SurvivingQuery(query)
    ensures SurvivingKeys(Flatten(query))
  {
    if query != [] {
      assert forall i | 0 <= i < |query| - 1 :: query[1..][i] == query[i + 1];
      FlattenSurvives(query[1..]);
      ValuePairsSurvive(query[0].key, query[0].values);
    }
  }

  // --- which queries arrive -----------------------------------------------------------------

  /** What the server reads of a written query: a client sends it up to the first hash. */
  function Arrived(pairs: seq<(string, string)>): seq<(string, string)> {
    Pairs(UpTo(JoinPieces(Pieces(pairs)), '#'))
  }

  lemma {:induction false} DecodeShrinks(s: string)
    ensures Decode(s).Some? ==> |Decode(s).value| <= |s|
    decreases |s|
  {
    if s != "" {
      if s[0] == '%' && DecodeChar(s).Some? {
        DecodeShrinks(s[DecodeChar(s).value.1..]);
      } else if s[0] != '%' {
        DecodeShrinks(s[1..]);
      }
    }
  }

  lemma ComponentShrinks(raw: string)
    ensures |Component(raw)| <= |raw|
  {
    DecodeShrinks(raw);
  }

  /** Of a key written before its equals sign at most the key itself is read as a key. */
  lemma KeyPart(key: string, tail: string)
    ensures var part := UpTo(UpTo(UpTo(key + "=" + tail, '#'), '&'), '=');
            && part <= key
            && (part == key ==> '&' !in key && '=' !in key && '#' !in key)
  {
    var text := key + "=" + tail;
    var toHash := UpTo(text, '#');
    var toAmp := UpTo(toHash, '&');
    var part := UpTo(toAmp, '=');
    assert part <= text && text[|key|] == '=';
    assert forall i | 0 <= i < |part| :: part[i] in part;
    assert forall c <- part :: c in toAmp && c in toHash;
  }

  /** When the first piece is empty, reading starts after its delimiter. */
  lemma EmptyFirstPiece(key: string, tail: string)
    requires var text := UpTo(key + "=" + tail, '#'); text != "" && text[0] == '&'
    ensures key != "" && key[0] == '&'
    ensures Pairs(UpTo(key + "=" + tail, '#')) == Pairs(UpTo(key[1..] + "=" + tail, '#'))
  {
    var text := UpTo(key + "=" + tail, '#');
    assert (key + "=" + tail)[0] == text[0];
    assert key + "=" + tail == [key[0]] + (key[1..] + "=" + tail);
    assert text[1..] == UpTo(key[1..] + "=" + tail, '#');
  }

  /** The first key read from a written key is no longer than it. */
  lemma {:induction false} FirstKeyIsShort(key: string, tail: string)
    ensures var ps := Pairs(UpTo(key + "=" + tail, '#'));
            ps == [] || |ps[0].0| <= |key|
    decreases |key|
  {
    var text := UpTo(key + "=" + tail, '#');
    KeyPart(key, tail);
    ComponentShrinks(UpTo(UpTo(text, '&'), '='));
    if text != "" && text[0] == '&' {
      EmptyFirstPiece(key, tail);
      FirstKeyIsShort(key[1..], tail);
    }
  }

  /** A key that does not survive is not the first key read back. */
  lemma LostKeyDiffers(key: string, tail: string)
    requires !Survives(key)
    ensures var ps := Pairs(UpTo(key + "=" + tail, '#'));
            ps == [] || ps[0].0 != key
  {
    var text := UpTo(key + "=" + tail, '#');
    if text != "" && text[0] == '&' {
      EmptyFirstPiece(key, tail);
      FirstKeyIsShort(key[1..], tail);
    } else if text != "" {
      var part := UpTo(UpTo(text, '&'), '=');
      FirstKeyRead(text);
      KeyPart(key, tail);
      ComponentShrinks(part);
      assert part != key ==> |part| < |key|;
    }
  }

  lemma FirstKeyRead(text: string)
    requires text != "" && text[0] != '&'
    ensures Pairs(text) != [] && Pairs(text)[0].0 == Component(UpTo(UpTo(text, '&'), '='))
  {}

  lemma JoinOf(pair: (string, string), rest: seq<(string, string)>)
    ensures JoinPieces(Pieces([pair] + rest))
            == Piece(pair.0, pair.1) + if rest == [] then "" else "&" + JoinPieces(Pieces(rest))
  {
    var all := [pair] + rest;
    assert all[1..] == rest;
    assert Pieces(all)[1..] == Pieces(rest);
    assert rest == [] ==> Pieces(rest) == [] && Piece(pair.0, pair.1) + "" == Piece(pair.0, pair.1);
  }

  /** A surviving key with more after it arrives with its value, and the rest as it would alone. */
  lemma SurvivingPairArrives(pair: (string, string), rest: seq<(string, string)>)
    requires Survives(pair.0) && rest != []
    ensures Arrived([pair] + rest) == [pair] + Arrived(rest)
  {
    var piece, more := Piece(pair.0, pair.1), JoinPieces(Pieces(rest));
    JoinOf(pair, rest);
    PieceRoundTrip(pair.0, pair.1);
    PieceIsSafe(pair.0, pair.1);
    UpToLocal(piece, '#', "&" + more);
    UpToLocal("&", '#', more);
    assert piece + ("&" + UpTo(more, '#')) == piece + "&" + UpTo(more, '#');
    assert |piece| >= 1;
    FirstPiece(piece, UpTo(more, '#'));
  }

  lemma LostPairDiffers(pair: (string, string), rest: seq<(string, string)>)
    requires !Survives(pair.0)
    ensures Arrived([pair] + rest) == [] || Arrived([pair] + rest)[0].0 != pair.0
  {
    var tail := Encode(pair.1) + if rest == [] then "" else "&" + JoinPieces(Pieces(rest));
    JoinOf(pair, rest);
    assert JoinPieces(Pieces([pair] + rest)) == pair.0 + "=" + tail;
    LostKeyDiffers(pair.0, tail);
  }

  /** The pairs before the first lost key arrive as they are, and the next key read is another. */
  lemma {:induction false} ArrivesUpToLost(pairs: seq<(string, string)>, i: nat) returns (ps: seq<(string, string)>)
    requires i < |pairs| && (forall k | 0 <= k < i :: Survives(pairs[k].0)) && !Survives(pairs[i].0)
    ensures Arrived(pairs) == pairs[..i] + ps
    ensures ps == [] || ps[0].0 != pairs[i].0
    decreases i
  {
    assert pairs == [pairs[0]] + pairs[1..];
    if i == 0 {
      LostPairDiffers(pairs[0], pairs[1..]);
      ps := Arrived(pairs);
      assert pairs[..0] + ps == ps;
    } else {
      SurvivingPairArrives(pairs[0], pairs[1..]);
      ps := ArrivesUpToLost(pairs[1..], i - 1);
      PrefixOfRest(pairs, i, ps);
    }
  }

  lemma PrefixOfRest<T>(s: seq<T>, i: nat, more: seq<T>)
    requires 1 <= i <= |s|
    ensures [s[0]] + (s[1..][..i - 1] + more) == s[..i] + more
  {
    assert [s[0]] + s[1..][..i - 1] == s[..i];
  }

  /** Adding values never takes an entry's key or values away. */
  ghost predicate Extends(before: Query, after: Query) {
    && |before| <= |after|
    && forall i | 0 <= i < |before| :: after[i].key == before[i].key && |after[i].values| >= |before[i].values|
  }

  lemma {:induction false} AddExtends(query: Query, key: string, value: string)
    ensures var after := Add(query, key, value);
            && Extends(query, after)
            && if forall e <- query :: e.key != key then after == query + [Entry(key, [value])]
               else exists i :: 0 <= i < |query| && |after[i].values| > |query[i].values|
  {
    if query != [] && query[0].key != key {
      var rest := query[1..];
      AddExtends(rest, key, value);
      assert query == [query[0]] + rest;
      var after := Add(query, key, value);
      if i :| 0 <= i < |rest| && |Add(rest, key, value)[i].values| > |rest[i].values| {
        assert |after[i + 1].values| > |query[i + 1].values|;
      }
    }
  }

  lemma {:induction false} AddAllExtends(query: Query, pairs: seq<(string, string)>)
    ensures Extends(query, AddAll(query, pairs))
    decreases |pairs|
  {
    if pairs != [] {
      AddExtends(query, pairs[0].0, pairs[0].1);
      AddAllExtends(Add(query, pairs[0].0, pairs[0].1), pairs[1..]);
    }
  }

  /** Once another key is read where the next entry should start, the query is no longer the one written. */
  lemma WrongKeyChangesTheQuery(query: Query, m: nat, ps: seq<(string, string)>)
    requires m < |query| && (ps == [] || ps[0].0 != query[m].key)
    ensures AddAll(query[..m], ps) != query
  {
    if ps != [] {
      var done := query[..m];
      var next := Add(done, ps[0].0, ps[0].1);
      AddExtends(done, ps[0].0, ps[0].1);
      AddAllExtends(next, ps[1..]);
      if forall e <- done :: e.key != ps[0].0 {
        assert next[m].key == ps[0].0;
      }
    }
  }

  lemma {:induction false} FlattenConcat(a: Query, b: Query)
    ensures Flatten(a + b) == Flatten(a) + Flatten(b)
  {
    if a == [] {
      assert a + b == b;
    } else {
      assert (a + b)[1..] == a[1..] + b;
      FlattenConcat(a[1..], b);
    }
  }

  /** The first entry whose key does not survive. */
  ghost function FirstLost(query: Query): (m: nat)
    requires !SurvivingQuery(query)
    ensures m < |query| && SurvivingQuery(query[..m]) && !Survives(query[m].key)
  {
    if !Survives(query[0].key) then 0
    else
      assert forall i | 1 <= i < |query| :: query[1..][i - 1] == query[i];
      var m := 1 + FirstLost(query[1..]);
      assert forall i | 1 <= i < m :: query[..m][i] == query[1..][..m - 1][i - 1];
      m
  }

  lemma LostQueryDiffers(query: Query)
    requires Grouped(query) && !SurvivingQuery(query)
    ensures AddAll([], Arrived(Flatten(query))) != query
  {
    var m := FirstLost(query);
    var done, rest := query[..m], query[m..];
    assert query == done + rest;
    FlattenConcat(done, rest);
    FlattenSurvives(done);
    var i := |Flatten(done)|;
    var all := Flatten(query);
    assert rest[0] == query[m];
    assert Flatten(rest)[0] == (query[m].key, query[m].values[0]);
    assert all[..i] == Flatten(done) && all[i] == Flatten(rest)[0];
    assert forall k | 0 <= k < i :: all[k] == Flatten(done)[k];
    var ps := ArrivesUpToLost(all, i);
    AddAllConcat([], Flatten(done), ps);
    GroupedPrefix(done, rest);
    assert [] + done == done;
    RegroupAfter([], done);
    WrongKeyChangesTheQuery(query, m, ps);
  }

  lemma SurvivingQueryArrives(query: Query)
    requires Grouped(query) && SurvivingQuery(query)
    ensures AddAll([], Arrived(Flatten(query))) == query
  {
    var pairs := Flatten(query);
    FlattenSurvives(query);
    PairsRoundTrip(pairs);
    QueryIsSafe(pairs);
    NothingToCut(JoinPieces(Pieces(pairs)));
    assert [] + query == query;
    RegroupAfter([], query);
  }

  /** A grouped query, written with its keys unescaped and sent by a client, reads back exactly if all keys survive. */
  lemma QueryArrivesExactly(query: Query)
    requires Grouped(query)
    ensures Parse(UpTo(JoinPieces(Pieces(Flatten(query))), '#')) == query <==> SurvivingQuery(query)
  {
    if SurvivingQuery(query) {
      SurvivingQueryArrives(query);
    } else {
      LostQueryDiffers(query);
    }
  }
}
