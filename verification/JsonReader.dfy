/**
 A reader of JSON text, written from the grammar of sections 2 to 7 of RFC 8259 and from nothing that the
 printer uses.  Canonical text read by it gives the value back, the members of every object in the order of
 the code units of their keys.
*/
module JsonReader {
  import opened Wrappers
  import opened JsonText
  import opened CanonicalJson

  /** The units of an ASCII text. */
  function Units(s: string): (x: Text)
    requires forall i :: 0 <= i < |s| ==> s[i] <= '~'
    ensures |x| == |s| && forall i :: 0 <= i < |s| ==> x[i] == s[i] as int
  {
    seq(|s|, i requires 0 <= i < |s| => s[i] as int)
  }

  function ReadLiteral(x: Text, literal: Text, v: Json): (r: Option<(Json, Text)>)
    ensures r.Some? ==> |r.value.1| == |x| - |literal|
  {
    if literal <= x then Some((v, x[|literal|..])) else None
  }

  predicate IsNumberUnit(u: Unit) {
    '0' as int <= u <= '9' as int || u in {'+' as int, '-' as int, '.' as int, 'e' as int}
  }

  /** How many units from the start on can belong to a number. */
  function NumberLength(x: Text): (n: nat)
    ensures n <= |x|
  {
    if x != [] && IsNumberUnit(x[0]) then 1 + NumberLength(x[1..]) else 0
  }

  function ReadNumber(x: Text): (r: Option<(Json, Text)>)
    ensures r.Some? ==> |r.value.1| < |x|
  {
    var n := NumberLength(x);
    if n > 0 && NumberText(x[..n]) then Some((Number(x[..n]), x[n..])) else None
  }

  lemma {:induction false} ReadBodyShrinks(x: Text)
    ensures ReadBody(x).Some? ==> |ReadBody(x).value.1| < |x|
    decreases |x|
  {
    if x != [] && x[0] != '"' as int && ReadUnit(x).Some? {
      ReadBodyShrinks(x[ReadUnit(x).value.1..]);
    }
  }

  function ReadString(x: Text): (r: Option<(Text, Text)>)
    ensures r.Some? ==> |r.value.1| < |x|
  {
    if x == [] || x[0] != '"' as int then None
    else
      ReadBodyShrinks(x[1..]);
      ReadBody(x[1..])
  }

  /** Reads one value; yields it and what follows. */
  function ReadValue(x: Text): (r: Option<(Json, Text)>)
    ensures r.Some? ==> |r.value.1| < |x|
    decreases |x|, 2
  {
    if x == [] then None
    else if x[0] == 'n' as int then ReadLiteral(x, Units("null"), Null)
    else if x[0] == 't' as int then ReadLiteral(x, Units("true"), Bool(true))
    else if x[0] == 'f' as int then ReadLiteral(x, Units("false"), Bool(false))
    else if x[0] == '"' as int then
      match ReadString(x)
      case None => None
      case Some((s, rest)) => Some((String(s), rest))
    else if x[0] == '[' as int then
      match ReadElements(x[1..], true)
      case None => None
      case Some((elems, rest)) => Some((Array(elems), rest))
    else if x[0] == '{' as int then
      match ReadMembers(x[1..], true)
      case None => None
      case Some((fields, rest)) => Some((Object(fields), rest))
    else ReadNumber(x)
  }

  /** Reads elements up to the closing bracket: a comma before each but the first. */
  function ReadElements(x: Text, first: bool): (r: Option<(seq<Json>, Text)>)
    ensures r.Some? ==> |r.value.1| < |x|
    decreases |x|, if first then 3 else 4
  {
    if x == [] then None
    else if x[0] == ']' as int then Some(([], x[1..]))
    else if !first && x[0] != ',' as int then None
    else
      match ReadValue(if first then x else x[1..])
      case None => None
      case Some((v, rest)) =>
        match ReadElements(rest, false)
        case None => None
        case Some((more, end)) => Some(([v] + more, end))
  }

  function ReadMember(x: Text): (r: Option<(Field, Text)>)
    ensures r.Some? ==> |r.value.1| < |x|
    decreases |x|, 2
  {
    match ReadString(x)
    case None => None
    case Some((key, rest)) =>
      if rest == [] || rest[0] != ':' as int then None
      else
        match ReadValue(rest[1..])
        case None => None
        case Some((v, end)) => Some((Field(key, v), end))
  }

  /** Reads members up to the closing brace: a comma before each but the first. */
  function ReadMembers(x: Text, first: bool): (r: Option<(seq<Field>, Text)>)
    ensures r.Some? ==> |r.value.1| < |x|
    decreases |x|, if first then 3 else 4
  {
    if x == [] then None
    else if x[0] == '}' as int then Some(([], x[1..]))
    else if !first && x[0] != ',' as int then None
    else
      match ReadMember(if first then x else x[1..])
      case None => None
      case Some((field, rest)) =>
        match ReadMembers(rest, false)
        case None => None
        case Some((more, end)) => Some(([field] + more, end))
  }

  // ---------- The value that canonical text stands for ----------

  /** The value with the members of every object in the order of their keys. */
  ghost function InOrder(v: Json): Json
    decreases v, 1
  {
    match v
    case Array(elems) => Array(ElementsInOrder(v, 0))
    case Object(fields) => Object(MembersInOrder(v, SortedKeys(fields), 0))
    case _ => v
  }

  ghost function ElementsInOrder(v: Json, i: nat): (r: seq<Json>)
    requires v.Array? && i <= |v.elems|
    ensures |r| == |v.elems| - i
    decreases v, 0, |v.elems| - i
  {
    if i == |v.elems| then [] else [InOrder(v.elems[i])] + ElementsInOrder(v, i + 1)
  }

  ghost function MembersInOrder(v: Json, keys: seq<Text>, i: nat): (r: seq<Field>)
    requires KeysOf(v, keys) && i <= |keys|
    ensures |r| == |keys| - i
    decreases v, 0, |keys| - i
  {
    if i == |keys| then [] else [Field(keys[i], InOrder(Member(v, keys[i])))] + MembersInOrder(v, keys, i + 1)
  }

  /** In every object of the value the keys come one before the other. */
  ghost predicate Ordered(v: Json)
    decreases v
  {
    match v
    case Array(elems) => forall i :: 0 <= i < |elems| ==> Ordered(elems[i])
    case Object(fields) =>
      && (forall i, j :: 0 <= i < j < |fields| ==> ComesBefore(fields[i].key, fields[j].key))
      && forall i :: 0 <= i < |fields| ==> Ordered(fields[i].value)
    case _ => true
  }

  lemma {:induction false} ElementInOrder(v: Json, i: nat, j: nat)
    requires v.Array? && i <= j < |v.elems|
    ensures ElementsInOrder(v, i)[j - i] == InOrder(v.elems[j])
    decreases j - i
  {
    if i < j {
      ElementInOrder(v, i + 1, j);
    }
  }

  lemma {:induction false} MemberInOrder(v: Json, keys: seq<Text>, i: nat, j: nat)
    requires KeysOf(v, keys) && i <= j < |keys|
    ensures MembersInOrder(v, keys, i)[j - i] == Field(keys[j], InOrder(Member(v, keys[j])))
    decreases j - i
  {
    if i < j {
      MemberInOrder(v, keys, i + 1, j);
    }
  }

  lemma ElementsOf(v: Json)
    requires v.Array?
    ensures InOrder(v).Array? && |InOrder(v).elems| == |v.elems|
    ensures forall j :: 0 <= j < |v.elems| ==> InOrder(v).elems[j] == InOrder(v.elems[j])
  {
    forall j | 0 <= j < |v.elems| ensures InOrder(v).elems[j] == InOrder(v.elems[j]) {
      ElementInOrder(v, 0, j);
    }
  }

  lemma MembersOf(v: Json)
    requires v.Object?
    ensures var keys := SortedKeys(v.fields);
      && InOrder(v).Object? && |InOrder(v).fields| == |keys|
      && forall j :: 0 <= j < |keys| ==> InOrder(v).fields[j] == Field(keys[j], InOrder(Member(v, keys[j])))
  {
    var keys := SortedKeys(v.fields);
    forall j | 0 <= j < |keys| ensures InOrder(v).fields[j] == Field(keys[j], InOrder(Member(v, keys[j]))) {
      MemberInOrder(v, keys, 0, j);
    }
  }

  /** Putting members in order changes nothing about the value, and then all keys are in order. */
  lemma {:induction false} InOrderIsSame(v: Json)
    requires Legal(v)
    ensures SameValue(v, InOrder(v)) && Ordered(InOrder(v))
    decreases v
  {
    match v
    case Array(elems) =>
      ElementsOf(v);
      forall i | 0 <= i < |elems| ensures SameValue(elems[i], InOrder(v).elems[i]) && Ordered(InOrder(v).elems[i]) {
        InOrderIsSame(elems[i]);
      }
    case Object(fields) =>
      MembersOf(v);
      forall i | 0 <= i < |InOrder(v).fields|
        ensures SameValue(Member(v, SortedKeys(fields)[i]), InOrder(v).fields[i].value) && Ordered(InOrder(v).fields[i].value)
      {
        InOrderIsSame(Member(v, SortedKeys(fields)[i]));
      }
      ObjectInOrder(v, InOrder(v));
    case _ =>
  }

  lemma ObjectInOrder(v: Json, o: Json)
    requires v.Object? && DistinctKeys(v.fields) && o.Object? && |o.fields| == |SortedKeys(v.fields)|
    requires forall i :: 0 <= i < |o.fields| ==>
      o.fields[i].key == SortedKeys(v.fields)[i] && SameValue(Member(v, SortedKeys(v.fields)[i]), o.fields[i].value)
      && Ordered(o.fields[i].value)
    ensures SameValue(v, o) && Ordered(o)
  {
    var keys := SortedKeys(v.fields);
    SortAscends(Keys(v.fields));
    forall i, j | 0 <= i < j < |o.fields| ensures ComesBefore(o.fields[i].key, o.fields[j].key) {
      LessIsLexicographic(keys[i], keys[j]);
    }
    assert Keys(o.fields) == keys;
    forall i, j | 0 <= i < |v.fields| && 0 <= j < |o.fields| && v.fields[i].key == o.fields[j].key
      ensures SameValue(v.fields[i].value, o.fields[j].value)
    {
      IndexIsUnique(v.fields, i);
    }
  }

  // ---------- Reading canonical text ----------

  /** The literals and marks that the printer writes are those of the grammar. */
  lemma Literals()
    ensures NULL_TEXT == Units("null") && TRUE_TEXT == Units("true") && FALSE_TEXT == Units("false")
    ensures QUOTE == '"' as int && COMMA == ',' as int && COLON == ':' as int
    ensures OPEN_BRACKET == '[' as int && CLOSE_BRACKET == ']' as int
    ensures OPEN_BRACE == '{' as int && CLOSE_BRACE == '}' as int
  {
  }

  lemma LiteralRead(literal: Text, r: Text, v: Json)
    ensures ReadLiteral(literal + r, literal, v) == Some((v, r))
  {
  }

  lemma {:induction false} NumberSpan(a: Text, r: Text)
    requires Delimited(r) && forall i :: 0 <= i < |a| ==> NumberUnit(a[i])
    ensures NumberLength(a + r) == |a|
  {
    if a == [] {
      assert a + r == r;
    } else {
      assert (a + r)[1..] == a[1..] + r;
      NumberSpan(a[1..], r);
    }
  }

  lemma NumberRead(n: Numeral, r: Text)
    requires Delimited(r)
    ensures ReadNumber(n + r) == Some((Number(n), r))
  {
    NumberSpan(n, r);
    assert (n + r)[..|n|] == n && (n + r)[|n|..] == r;
  }

  lemma StringRead(s: Text, r: Text)
    ensures ReadString(Quote(s) + r) == Some((s, r))
  {
    OpenQuote(s, r);
    ReadWritten(s, [QUOTE] + r);
    assert ([QUOTE] + r)[1..] == r;
  }

  lemma ArrayRead(x: Text, tail: Text, elems: seq<Json>, r: Text)
    requires x == [OPEN_BRACKET] + tail && ReadElements(tail, true) == Some((elems, r))
    ensures ReadValue(x) == Some((Array(elems), r))
  {
    assert x[1..] == tail;
  }

  lemma ObjectRead(x: Text, tail: Text, fields: seq<Field>, r: Text)
    requires x == [OPEN_BRACE] + tail && ReadMembers(tail, true) == Some((fields, r))
    ensures ReadValue(x) == Some((Object(fields), r))
  {
    assert x[1..] == tail;
  }

  lemma ScalarRead(v: Json, r: Text)
    requires !v.Array? && !v.Object? && Delimited(r)
    ensures ReadValue(Serialize(v) + r) == Some((v, r))
  {
    StartsWith(v, r);
    match v
    case Null => LiteralRead(NULL_TEXT, r, v);
    case Bool(b) => LiteralRead(if b then TRUE_TEXT else FALSE_TEXT, r, v);
    case Number(numeral) => NumberRead(numeral, r);
    case String(s) => StringRead(s, r);
  }

  /** The text of the value, whatever follows it, is read as the value with its members in order. */
  ghost predicate ReadsBack(v: Json) {
    forall r {:trigger Serialize(v) + r} :: Delimited(r) ==> ReadValue(Serialize(v) + r) == Some((InOrder(v), r))
  }

  lemma {:induction false} ReadPrinted(v: Json)
    requires Legal(v)
    ensures ReadsBack(v)
    decreases v
  {
    match v
    case Array(elems) =>
      forall i | 0 <= i < |elems| ensures ReadsBack(elems[i]) {
        ReadPrinted(elems[i]);
      }
      ReadArray(v);
    case Object(fields) =>
      forall i | 0 <= i < |fields| ensures ReadsBack(fields[i].value) {
        ReadPrinted(fields[i].value);
      }
      ReadObject(v);
    case _ =>
      forall r | Delimited(r) ensures ReadValue(Serialize(v) + r) == Some((InOrder(v), r)) {
        ScalarRead(v, r);
      }
  }

  lemma ReadArray(v: Json)
    requires v.Array? && forall i :: 0 <= i < |v.elems| ==> ReadsBack(v.elems[i])
    ensures ReadsBack(v)
  {
    forall r | Delimited(r) ensures ReadValue(Serialize(v) + r) == Some((InOrder(v), r)) {
      Regroup([OPEN_BRACKET], Elements(v, 0), r);
      ReadAllElements(v, r);
      ArrayRead(Serialize(v) + r, Elements(v, 0) + r, ElementsInOrder(v, 0), r);
    }
  }

  lemma ReadAllElements(v: Json, r: Text)
    requires v.Array? && forall i :: 0 <= i < |v.elems| ==> ReadsBack(v.elems[i])
    ensures ReadElements(Elements(v, 0) + r, true) == Some((ElementsInOrder(v, 0), r))
  {
    if |v.elems| == 0 {
      ElementsEnd(v, r);
    } else {
      ReadPrintedElements(v, 1, r);
      ElementsStep(v, 0, r);
    }
  }

  lemma ReadObject(v: Json)
    requires v.Object? && forall i :: 0 <= i < |v.fields| ==> ReadsBack(v.fields[i].value)
    ensures ReadsBack(v)
  {
    var keys := SortedKeys(v.fields);
    forall r | Delimited(r) ensures ReadValue(Serialize(v) + r) == Some((InOrder(v), r)) {
      Regroup([OPEN_BRACE], Members(v, keys, 0), r);
      ReadAllMembers(v, keys, r);
      ObjectRead(Serialize(v) + r, Members(v, keys, 0) + r, MembersInOrder(v, keys, 0), r);
    }
  }

  lemma ReadAllMembers(v: Json, keys: seq<Text>, r: Text)
    requires KeysOf(v, keys) && forall i :: 0 <= i < |v.fields| ==> ReadsBack(v.fields[i].value)
    ensures ReadMembers(Members(v, keys, 0) + r, true) == Some((MembersInOrder(v, keys, 0), r))
  {
    if |keys| == 0 {
      MembersEnd(v, keys, r);
    } else {
      ReadPrintedMembers(v, keys, 1, r);
      assert ReadsBack(Member(v, keys[0]));
      MembersStep(v, keys, 0, r);
    }
  }

  lemma {:induction false} ReadPrintedElements(v: Json, i: nat, r: Text)
    requires v.Array? && 0 < i <= |v.elems| && forall j :: 0 <= j < |v.elems| ==> ReadsBack(v.elems[j])
    ensures ReadElements(Elements(v, i) + r, false) == Some((ElementsInOrder(v, i), r))
    decreases |v.elems| - i
  {
    if i < |v.elems| {
      ReadPrintedElements(v, i + 1, r);
      ElementsStep(v, i, r);
    } else {
      ElementsEnd(v, r);
    }
  }

  lemma ElementsEnd(v: Json, r: Text)
    requires v.Array?
    ensures ReadElements(Elements(v, |v.elems|) + r, |v.elems| == 0) == Some((ElementsInOrder(v, |v.elems|), r))
  {
    assert ([CLOSE_BRACKET] + r)[1..] == r;
  }

  lemma ElementsStep(v: Json, i: nat, r: Text)
    requires v.Array? && i < |v.elems| && ReadsBack(v.elems[i])
    requires ReadElements(Elements(v, i + 1) + r, false) == Some((ElementsInOrder(v, i + 1), r))
    ensures ReadElements(Elements(v, i) + r, i == 0) == Some((ElementsInOrder(v, i), r))
  {
    var rest := Elements(v, i + 1) + r;
    ElementsStart(v, i + 1, r);
    ElementsUnfold(v, i, r);
    StartsWith(v.elems[i], []);
    assert ReadValue(Serialize(v.elems[i]) + rest) == Some((InOrder(v.elems[i]), rest));
    ElementRead(Serialize(v.elems[i]), rest, i, InOrder(v.elems[i]), ElementsInOrder(v, i + 1), r);
  }

  lemma ElementRead(element: Text, rest: Text, i: nat, e: Json, more: seq<Json>, r: Text)
    requires element != [] && element[0] != ']' as int
    requires ReadValue(element + rest) == Some((e, rest)) && ReadElements(rest, false) == Some((more, r))
    ensures ReadElements(Separator(i) + (element + rest), i == 0) == Some(([e] + more, r))
  {
    if i == 0 {
      assert Separator(i) + (element + rest) == element + rest;
    } else {
      assert (Separator(i) + (element + rest))[1..] == element + rest;
    }
  }

  lemma {:induction false} ReadPrintedMembers(v: Json, keys: seq<Text>, i: nat, r: Text)
    requires KeysOf(v, keys) && 0 < i <= |keys| && forall j :: 0 <= j < |v.fields| ==> ReadsBack(v.fields[j].value)
    ensures ReadMembers(Members(v, keys, i) + r, false) == Some((MembersInOrder(v, keys, i), r))
    decreases |keys| - i
  {
    if i < |keys| {
      ReadPrintedMembers(v, keys, i + 1, r);
      assert ReadsBack(Member(v, keys[i]));
      MembersStep(v, keys, i, r);
    } else {
      MembersEnd(v, keys, r);
    }
  }

  lemma MembersEnd(v: Json, keys: seq<Text>, r: Text)
    requires KeysOf(v, keys)
    ensures ReadMembers(Members(v, keys, |keys|) + r, |keys| == 0) == Some((MembersInOrder(v, keys, |keys|), r))
  {
    assert ([CLOSE_BRACE] + r)[1..] == r;
  }

  lemma MembersStep(v: Json, keys: seq<Text>, i: nat, r: Text)
    requires KeysOf(v, keys) && i < |keys| && ReadsBack(Member(v, keys[i]))
    requires ReadMembers(Members(v, keys, i + 1) + r, false) == Some((MembersInOrder(v, keys, i + 1), r))
    ensures ReadMembers(Members(v, keys, i) + r, i == 0) == Some((MembersInOrder(v, keys, i), r))
  {
    var value, rest := Member(v, keys[i]), Members(v, keys, i + 1) + r;
    MembersStart(v, keys, i + 1, r);
    MembersUnfold(v, keys, i, r);
    assert ReadValue(Serialize(value) + rest) == Some((InOrder(value), rest));
    MemberRead(keys[i], Serialize(value) + rest, InOrder(value), rest);
    NextMember(keys[i], [COLON] + (Serialize(value) + rest), i, Field(keys[i], InOrder(value)), rest,
               MembersInOrder(v, keys, i + 1), r);
  }

  lemma MemberRead(key: Text, tail: Text, value: Json, rest: Text)
    requires ReadValue(tail) == Some((value, rest))
    ensures ReadMember(Quote(key) + ([COLON] + tail)) == Some((Field(key, value), rest))
  {
    StringRead(key, [COLON] + tail);
    assert ([COLON] + tail)[1..] == tail;
  }

  lemma NextMember(key: Text, tail: Text, i: nat, field: Field, rest: Text, more: seq<Field>, r: Text)
    requires ReadMember(Quote(key) + tail) == Some((field, rest)) && ReadMembers(rest, false) == Some((more, r))
    ensures ReadMembers(Separator(i) + (Quote(key) + tail), i == 0) == Some(([field] + more, r))
  {
    var x := Quote(key) + tail;
    assert x[0] == QUOTE;
    if i == 0 {
      assert Separator(i) + x == x;
    } else {
      assert (Separator(i) + x)[1..] == x;
    }
  }

  /**
   Round trip: canonical text is JSON, and it reads as the same value, the members of each object ordered by the
   code units of their keys.
  */
  lemma CanonicalRoundTrip(v: Json)
    requires Legal(v)
    ensures var r := ReadValue(Serialize(v));
      r.Some? && r.value.1 == [] && SameValue(v, r.value.0) && Ordered(r.value.0)
  {
    ReadPrinted(v);
    assert Serialize(v) + [] == Serialize(v);
    InOrderIsSame(v);
  }
}
