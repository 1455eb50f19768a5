/**
 Texts as sequences of UTF-16 code units: ordering, and the quoted string form of section 7 of
 RFC 8259 as the platform's serializer writes it (lone surrogates escaped).
*/
module JsonText {
  import opened Wrappers

  type Unit = n: int | 0 <= n < 0x1_0000
  type Text = seq<Unit>

  const QUOTE: Unit := 34
  const COMMA: Unit := 44
  const COLON: Unit := 58
  const OPEN_BRACKET: Unit := 91
  const BACKSLASH: Unit := 92
  const CLOSE_BRACKET: Unit := 93
  const OPEN_BRACE: Unit := 123
  const CLOSE_BRACE: Unit := 125

  // ---------- Code unit order ----------

  predicate Less(a: Text, b: Text) {
    if b == [] then false
    else if a == [] then true
    else if a[0] != b[0] then a[0] < b[0]
    else Less(a[1..], b[1..])
  }

  lemma {:induction false} LessTotal(a: Text, b: Text)
    ensures a == b || Less(a, b) || Less(b, a)
  {
    if a != [] && b != [] && a[0] == b[0] {
      LessTotal(a[1..], b[1..]);
      assert a == [a[0]] + a[1..] && b == [b[0]] + b[1..];
    }
  }

  lemma {:induction false} LessAsymmetric(a: Text, b: Text)
    requires Less(a, b)
    ensures a != b && !Less(b, a)
  {
    if a != [] && a[0] == b[0] {
      LessAsymmetric(a[1..], b[1..]);
    }
  }

  lemma {:induction false} LessTransitive(a: Text, b: Text, c: Text)
    requires Less(a, b) && Less(b, c)
    ensures Less(a, c)
  {
    if a != [] && a[0] == b[0] == c[0] {
      LessTransitive(a[1..], b[1..], c[1..]);
    }
  }

  /** The texts agree before unit `k`, where the first one ends or has the smaller unit. */
  ghost predicate DiffersAt(a: Text, b: Text, k: int) {
    && 0 <= k <= |a| && k < |b| && a[..k] == b[..k]
    && (k == |a| || a[k] < b[k])
  }

  /** One text is a proper prefix of the other, or has the smaller unit where they first differ. */
  ghost predicate ComesBefore(a: Text, b: Text) {
    exists k :: DiffersAt(a, b, k)
  }

  lemma SameFirst(a: Text, b: Text, k: nat)
    requires 0 < k <= |a| && k <= |b| && a[..k] == b[..k]
    ensures a[0] == b[0]
  {
    assert a[..k][0] == b[..k][0];
  }

  lemma {:induction false} LessIsLexicographic(a: Text, b: Text)
    ensures Less(a, b) <==> ComesBefore(a, b)
  {
    if a != [] && b != [] && a[0] == b[0] {
      LessIsLexicographic(a[1..], b[1..]);
      if k :| DiffersAt(a[1..], b[1..], k) {
        assert a[..k + 1] == [a[0]] + a[1..][..k] && b[..k + 1] == [b[0]] + b[1..][..k];
        assert DiffersAt(a, b, k + 1);
      }
      if k :| DiffersAt(a, b, k) {
        assert a[1..][..k - 1] == a[..k][1..] && b[1..][..k - 1] == b[..k][1..];
        assert DiffersAt(a[1..], b[1..], k - 1);
      }
    } else {
      if Less(a, b) {
        assert DiffersAt(a, b, 0);
      }
      if k :| DiffersAt(a, b, k) {
        if k > 0 {
          SameFirst(a, b, k);
        }
      }
    }
  }

  ghost predicate Ascending(keys: seq<Text>) {
    forall i, j :: 0 <= i < j < |keys| ==> Less(keys[i], keys[j])
  }

  function Insert(key: Text, keys: seq<Text>): seq<Text> {
    if keys == [] then [key]
    else if Less(key, keys[0]) then [key] + keys
    else [keys[0]] + Insert(key, keys[1..])
  }

  function SortKeys(keys: seq<Text>): seq<Text> {
    if keys == [] then [] else Insert(keys[0], SortKeys(keys[1..]))
  }

  lemma {:induction false} InsertMembers(key: Text, keys: seq<Text>, k: Text)
    ensures k in Insert(key, keys) <==> k == key || k in keys
  {
    if keys != [] && !Less(key, keys[0]) {
      InsertMembers(key, keys[1..], k);
      assert keys == [keys[0]] + keys[1..];
    }
  }

  lemma AscendingCons(key: Text, keys: seq<Text>)
    requires Ascending(keys) && forall k :: k in keys ==> Less(key, k)
    ensures Ascending([key] + keys)
  {
  }

  lemma {:induction false} InsertAscends(key: Text, keys: seq<Text>)
    requires Ascending(keys) && key !in keys
    ensures Ascending(Insert(key, keys))
  {
    if keys != [] {
      LessTotal(key, keys[0]);
      if Less(key, keys[0]) {
        forall k | k in keys ensures Less(key, k) {
          if k != keys[0] {
            LessTransitive(key, keys[0], k);
          }
        }
        AscendingCons(key, keys);
      } else {
        InsertAscends(key, keys[1..]);
        forall k | k in Insert(key, keys[1..]) ensures Less(keys[0], k) {
          InsertMembers(key, keys[1..], k);
        }
        AscendingCons(keys[0], Insert(key, keys[1..]));
      }
    }
  }

  ghost predicate AllDistinct(keys: seq<Text>) {
    forall i, j :: 0 <= i < j < |keys| ==> keys[i] != keys[j]
  }

  /** Sorting distinct keys puts them in ascending order and keeps each of them. */
  lemma {:induction false} SortAscends(keys: seq<Text>)
    requires AllDistinct(keys)
    ensures Ascending(SortKeys(keys)) && forall k :: k in SortKeys(keys) <==> k in keys
  {
    if keys != [] {
      SortAscends(keys[1..]);
      assert keys == [keys[0]] + keys[1..];
      InsertAscends(keys[0], SortKeys(keys[1..]));
      forall k ensures k in SortKeys(keys) <==> k in keys {
        InsertMembers(keys[0], SortKeys(keys[1..]), k);
      }
    }
  }

  lemma {:induction false} AscendingUnique(a: seq<Text>, b: seq<Text>)
    requires Ascending(a) && Ascending(b) && forall k :: k in a <==> k in b
    ensures a == b
  {
    if a == [] {
      assert forall i :: 0 <= i < |b| ==> b[i] in b;
    } else {
      assert a[0] in b;
      assert b[0] in a;
      if a[0] != b[0] {
        LessAsymmetric(a[0], b[0]);
      }
      forall k ensures k in a[1..] <==> k in b[1..] {
        TailOf(a, k);
        TailOf(b, k);
      }
      AscendingUnique(a[1..], b[1..]);
      assert a == [a[0]] + a[1..] && b == [b[0]] + b[1..];
    }
  }

  lemma TailOf(a: seq<Text>, k: Text)
    requires a != [] && Ascending(a)
    ensures k in a[1..] <==> k in a && k != a[0]
  {
    if k in a[1..] {
      var i :| 0 <= i < |a[1..]| && a[1..][i] == k;
      LessAsymmetric(a[0], a[i + 1]);
    }
  }

  // ---------- Quoted strings ----------

  function HexDigit(d: int): (u: Unit)
    requires 0 <= d < 16
    ensures HexValue(u) == d && u < 128
  {
    if d < 10 then 48 + d else 87 + d
  }

  function HexValue(u: Unit): int {
    if 48 <= u <= 57 then u - 48 else u - 87
  }

  function UnicodeEscape(u: Unit): Text {
    [BACKSLASH, 117, HexDigit(u / 16 / 16 / 16), HexDigit(u / 16 / 16 % 16), HexDigit(u / 16 % 16), HexDigit(u % 16)]
  }

  predicate Lead(u: Unit) {
    0xD800 <= u <= 0xDBFF
  }

  predicate Trail(u: Unit) {
    0xDC00 <= u <= 0xDFFF
  }

  function EscapeUnit(u: Unit): Text {
    if u == QUOTE || u == BACKSLASH then [BACKSLASH, u]
    else if u == 8 then [BACKSLASH, 98]
    else if u == 9 then [BACKSLASH, 116]
    else if u == 10 then [BACKSLASH, 110]
    else if u == 12 then [BACKSLASH, 102]
    else if u == 13 then [BACKSLASH, 114]
    else if u < 32 || Lead(u) || Trail(u) then UnicodeEscape(u)
    else [u]
  }

  function Escape(s: Text): Text {
    if s == [] then []
    else if |s| > 1 && Lead(s[0]) && Trail(s[1]) then [s[0], s[1]] + Escape(s[2..])
    else EscapeUnit(s[0]) + Escape(s[1..])
  }

  function Quote(s: Text): Text {
    [QUOTE] + Escape(s) + [QUOTE]
  }

  /** One step of reading a string body: the unit that was written and how many units it took. */
  function ReadUnit(x: Text): (r: Option<(Unit, nat)>)
    ensures r.Some? ==> 0 < r.value.1 <= |x|
  {
    if x == [] || x[0] == QUOTE || x[0] < 32 then None
    else if x[0] != BACKSLASH then Some((x[0], 1))
    else if |x| < 2 then None
    else if x[1] == 98 then Some((8, 2))
    else if x[1] == 116 then Some((9, 2))
    else if x[1] == 110 then Some((10, 2))
    else if x[1] == 102 then Some((12, 2))
    else if x[1] == 114 then Some((13, 2))
    else if x[1] != 117 then Some((x[1], 2))
    else if |x| < 6 then None
    else
      var u := HexValue(x[2]) * 4096 + HexValue(x[3]) * 256 + HexValue(x[4]) * 16 + HexValue(x[5]);
      if 0 <= u < 0x1_0000 then Some((u, 6)) else None
  }

  lemma HexRoundTrip(u: Unit)
    ensures u / 16 / 16 / 16 * 4096 + u / 16 / 16 % 16 * 256 + u / 16 % 16 * 16 + u % 16 == u
  {
    var a := u / 16;
    var b := a / 16;
    assert u == 16 * a + u % 16;
    assert a == 16 * b + a % 16;
    assert b == 16 * (b / 16) + b % 16;
  }

  lemma ReadUnicodeEscape(u: Unit, rest: Text)
    ensures ReadUnit(UnicodeEscape(u) + rest) == Some((u, 6))
  {
    HexRoundTrip(u);
    var x := UnicodeEscape(u) + rest;
    assert x[0] == BACKSLASH && x[1] == 117;
    assert HexValue(x[2]) == u / 16 / 16 / 16 && HexValue(x[3]) == u / 16 / 16 % 16;
    assert HexValue(x[4]) == u / 16 % 16 && HexValue(x[5]) == u % 16;
  }

  lemma ReadEscaped(u: Unit, rest: Text)
    ensures ReadUnit(EscapeUnit(u) + rest) == Some((u, |EscapeUnit(u)|))
  {
    if EscapeUnit(u) == UnicodeEscape(u) {
      ReadUnicodeEscape(u, rest);
    }
  }

  /** Reads units up to the closing quote; yields the string and what follows the quote. */
  function ReadBody(x: Text): Option<(Text, Text)>
    decreases |x|
  {
    if x != [] && x[0] == QUOTE then Some(([], x[1..]))
    else
      match ReadUnit(x)
      case None => None
      case Some((u, n)) =>
        match ReadBody(x[n..])
        case None => None
        case Some((s, rest)) => Some(([u] + s, rest))
  }

  lemma ReadBodyStep(u: Unit, head: Text, tail: Text)
    requires ReadUnit(head + tail) == Some((u, |head|)) && head != [] && head[0] != QUOTE
    requires ReadBody(tail).Some?
    ensures ReadBody(head + tail) == Some(([u] + ReadBody(tail).value.0, ReadBody(tail).value.1))
  {
    assert (head + tail)[|head|..] == tail;
  }

  /** Only what has to be escaped is, in the short form where there is one. */
  lemma EscapeIsShort(u: Unit)
    ensures |EscapeUnit(u)| ==
      if u in {34, 92, 8, 9, 10, 12, 13} then 2
      else if u < 32 || 0xD800 <= u <= 0xDFFF then 6
      else 1
  {
  }

  /** In a well-formed text surrogates come in pairs, a leading one and then a trailing one. */
  predicate WellFormed(x: Text) {
    && (forall k :: 0 <= k < |x| && 0xD800 <= x[k] <= 0xDBFF ==> k + 1 < |x| && 0xDC00 <= x[k + 1] <= 0xDFFF)
    && (forall k :: 0 <= k < |x| && 0xDC00 <= x[k] <= 0xDFFF ==> 0 < k && 0xD800 <= x[k - 1] <= 0xDBFF)
  }

  lemma WellFormedJoin(x: Text, y: Text)
    requires WellFormed(x) && WellFormed(y)
    ensures WellFormed(x + y)
  {
  }

  lemma PairIsWellFormed(a: Unit, b: Unit)
    requires Lead(a) && Trail(b)
    ensures WellFormed([a, b])
  {
  }

  lemma AsciiIsWellFormed(x: Text)
    requires forall k :: 0 <= k < |x| ==> x[k] < 128
    ensures WellFormed(x)
  {
  }

  lemma UnitIsWellFormed(u: Unit)
    ensures WellFormed(EscapeUnit(u))
  {
    if EscapeUnit(u) != [u] {
      AsciiIsWellFormed(EscapeUnit(u));
    }
  }

  /** Whatever units a string holds, its quoted form is well-formed. */
  lemma {:induction false} EscapedIsWellFormed(s: Text)
    ensures WellFormed(Escape(s))
    decreases |s|
  {
    if s == [] {
    } else if |s| > 1 && Lead(s[0]) && Trail(s[1]) {
      EscapedIsWellFormed(s[2..]);
      PairIsWellFormed(s[0], s[1]);
      WellFormedJoin([s[0], s[1]], Escape(s[2..]));
    } else {
      EscapedIsWellFormed(s[1..]);
      UnitIsWellFormed(s[0]);
      WellFormedJoin(EscapeUnit(s[0]), Escape(s[1..]));
    }
  }

  lemma ReadPair(a: Unit, b: Unit, tail: Text)
    requires Lead(a) && Trail(b) && ReadBody(tail).Some?
    ensures ReadBody([a, b] + tail) == Some(([a, b] + ReadBody(tail).value.0, ReadBody(tail).value.1))
  {
    ReadBodyStep(b, [b], tail);
    ReadBodyStep(a, [a], [b] + tail);
    assert [a, b] + tail == [a] + ([b] + tail);
    assert [a] + ([b] + ReadBody(tail).value.0) == [a, b] + ReadBody(tail).value.0;
  }

  lemma ReadHead(u: Unit, tail: Text, s: Text, rest: Text)
    requires ReadBody(tail) == Some((s, rest))
    ensures ReadBody(EscapeUnit(u) + tail) == Some(([u] + s, rest))
  {
    ReadEscaped(u, tail);
    ReadBodyStep(u, EscapeUnit(u), tail);
  }

  lemma Regroup(a: Text, b: Text, c: Text)
    ensures a + b + c == a + (b + c)
  {
  }

  lemma ReadSingle(u: Unit, s: Text, written: Text, close: Text)
    requires close != [] && ReadBody(written + close) == Some((s, close[1..]))
    ensures ReadBody(EscapeUnit(u) + written + close) == Some(([u] + s, close[1..]))
  {
    ReadHead(u, written + close, s, close[1..]);
    Regroup(EscapeUnit(u), written, close);
  }

  lemma ReadDouble(a: Unit, b: Unit, s: Text, written: Text, close: Text)
    requires Lead(a) && Trail(b) && close != [] && ReadBody(written + close) == Some((s, close[1..]))
    ensures ReadBody([a, b] + written + close) == Some(([a, b] + s, close[1..]))
  {
    ReadPair(a, b, written + close);
    Regroup([a, b], written, close);
  }

  /** Reading back a written string body returns the string and exactly what followed it. */
  lemma {:induction false} ReadWritten(s: Text, close: Text)
    requires close != [] && close[0] == QUOTE
    ensures ReadBody(Escape(s) + close) == Some((s, close[1..]))
    decreases |s|
  {
    if s == [] {
      assert Escape(s) + close == close;
    } else if |s| > 1 && Lead(s[0]) && Trail(s[1]) {
      ReadWritten(s[2..], close);
      ReadDouble(s[0], s[1], s[2..], Escape(s[2..]), close);
      assert s == [s[0], s[1]] + s[2..];
    } else {
      ReadWritten(s[1..], close);
      ReadSingle(s[0], s[1..], Escape(s[1..]), close);
      assert s == [s[0]] + s[1..];
    }
  }

  /** A quoted string determines both its contents and where it ends. */
  lemma QuoteUnambiguous(a: Text, b: Text, r: Text, t: Text)
    requires Quote(a) + r == Quote(b) + t
    ensures a == b && r == t
  {
    ReadWritten(a, [QUOTE] + r);
    ReadWritten(b, [QUOTE] + t);
    OpenQuote(a, r);
    OpenQuote(b, t);
  }

  lemma OpenQuote(s: Text, rest: Text)
    ensures (Quote(s) + rest)[1..] == Escape(s) + ([QUOTE] + rest)
  {
  }
}
