/**
 Canonical JSON: object members ordered by the code units of their keys (section 3.2.3 of RFC 8785),
 no insignificant whitespace.  Every digest rests on this text being a function of the value alone
 and on no two values sharing it.
*/
module CanonicalJson {
  import opened Wrappers
  import opened JsonText

  predicate NumberUnit(u: Unit) {
    48 <= u <= 57 || u == 43 || u == 45 || u == 46 || u == 101
  }

  /** A finite number is identified with the text the platform writes for it. */
  predicate NumberText(t: Text) {
    t != [] && (48 <= t[0] <= 57 || t[0] == 45) && forall i :: 0 <= i < |t| ==> NumberUnit(t[i])
  }

  type Numeral = t: Text | NumberText(t) witness [48]

  datatype Json =
    | Null
    | Bool(b: bool)
    | Number(numeral: Numeral)
    | String(s: Text)
    | Array(elems: seq<Json>)
    | Object(fields: seq<Field>)

  datatype Field = Field(key: Text, value: Json)

  const NULL_TEXT: Text := [110, 117, 108, 108]
  const TRUE_TEXT: Text := [116, 114, 117, 101]
  const FALSE_TEXT: Text := [102, 97, 108, 115, 101]

  function Keys(fields: seq<Field>): (r: seq<Text>)
    ensures |r| == |fields| && forall i :: 0 <= i < |r| ==> r[i] == fields[i].key
  {
    seq(|fields|, i requires 0 <= i < |fields| => fields[i].key)
  }

  ghost predicate DistinctKeys(fields: seq<Field>) {
    AllDistinct(Keys(fields))
  }

  /** A value as the language can build it: no object holds a key twice. */
  ghost predicate Legal(v: Json) {
    match v
    case Array(elems) => forall i :: 0 <= i < |elems| ==> Legal(elems[i])
    case Object(fields) => DistinctKeys(fields) && forall i :: 0 <= i < |fields| ==> Legal(fields[i].value)
    case _ => true
  }

  function IndexOf(fields: seq<Field>, key: Text): (i: nat)
    requires key in Keys(fields)
    ensures i < |fields| && fields[i].key == key
  {
    if fields[0].key == key then 0
    else
      assert key in Keys(fields[1..]) by {
        var i :| 0 <= i < |fields| && Keys(fields)[i] == key;
        assert Keys(fields[1..])[i - 1] == key;
      }
      1 + IndexOf(fields[1..], key)
  }

  // ---------- The printer ----------

  function Serialize(v: Json): Text
    decreases v, 1
  {
    match v
    case Null => NULL_TEXT
    case Bool(b) => if b then TRUE_TEXT else FALSE_TEXT
    case Number(numeral) => numeral
    case String(s) => Quote(s)
    case Array(elems) => [OPEN_BRACKET] + Elements(v, 0)
    case Object(fields) => [OPEN_BRACE] + Members(v, SortedKeys(fields), 0)
  }

  function SortedKeys(fields: seq<Field>): (keys: seq<Text>)
    ensures forall i :: 0 <= i < |keys| ==> keys[i] in Keys(fields)
  {
    SortMembersOnly(Keys(fields));
    SortKeys(Keys(fields))
  }

  lemma {:induction false} SortMembersOnly(keys: seq<Text>)
    ensures forall i :: 0 <= i < |SortKeys(keys)| ==> SortKeys(keys)[i] in keys
  {
    if keys != [] {
      SortMembersOnly(keys[1..]);
      forall i | 0 <= i < |SortKeys(keys)| ensures SortKeys(keys)[i] in keys {
        InsertMembers(keys[0], SortKeys(keys[1..]), SortKeys(keys)[i]);
        assert keys == [keys[0]] + keys[1..];
        if SortKeys(keys)[i] != keys[0] {
          var j :| 0 <= j < |SortKeys(keys[1..])| && SortKeys(keys[1..])[j] == SortKeys(keys)[i];
        }
      }
    }
  }

  /** The elements from index `i` on, comma separated, with the closing bracket. */
  function Elements(v: Json, i: nat): Text
    requires v.Array? && i <= |v.elems|
    decreases v, 0, |v.elems| - i
  {
    if i == |v.elems| then [CLOSE_BRACKET]
    else Separator(i) + Serialize(v.elems[i]) + Elements(v, i + 1)
  }

  function Separator(i: nat): Text {
    if i == 0 then [] else [COMMA]
  }

  /** The members under the sorted keys from index `i` on, with the closing brace. */
  function Members(v: Json, keys: seq<Text>, i: nat): Text
    requires v.Object? && i <= |keys| && forall k :: 0 <= k < |keys| ==> keys[k] in Keys(v.fields)
    decreases v, 0, |keys| - i
  {
    if i == |keys| then [CLOSE_BRACE]
    else
      var field := v.fields[IndexOf(v.fields, keys[i])];
      Separator(i) + Quote(keys[i]) + [COLON] + Serialize(field.value) + Members(v, keys, i + 1)
  }

  // ---------- Equality of values, objects read as maps ----------

  ghost predicate SameValue(a: Json, b: Json)
    decreases a
  {
    match a
    case Array(elems) =>
      && b.Array? && |b.elems| == |elems|
      && forall i :: 0 <= i < |elems| ==> SameValue(elems[i], b.elems[i])
    case Object(fields) =>
      && b.Object? && (forall k :: k in Keys(fields) <==> k in Keys(b.fields))
      && forall i, j :: 0 <= i < |fields| && 0 <= j < |b.fields| && fields[i].key == b.fields[j].key ==>
           SameValue(fields[i].value, b.fields[j].value)
    case _ => a == b
  }

  // ---------- Same value, same text ----------

  lemma {:induction false} SameText(a: Json, b: Json)
    requires Legal(a) && Legal(b) && SameValue(a, b)
    ensures Serialize(a) == Serialize(b)
    decreases a, 1
  {
    match a
    case Array(elems) => SameElements(a, b, 0);
    case Object(fields) =>
      SortAscends(Keys(a.fields));
      SortAscends(Keys(b.fields));
      AscendingUnique(SortedKeys(a.fields), SortedKeys(b.fields));
      SameMembers(a, b, SortedKeys(a.fields), 0);
    case _ =>
  }

  lemma {:induction false} SameElements(a: Json, b: Json, i: nat)
    requires Legal(a) && Legal(b) && SameValue(a, b) && a.Array? && i <= |a.elems|
    ensures Elements(a, i) == Elements(b, i)
    decreases a, 0, |a.elems| - i
  {
    if i < |a.elems| {
      SameText(a.elems[i], b.elems[i]);
      SameElements(a, b, i + 1);
    }
  }

  lemma {:induction false} SameMembers(a: Json, b: Json, keys: seq<Text>, i: nat)
    requires Legal(a) && Legal(b) && SameValue(a, b) && a.Object? && i <= |keys|
    requires forall k :: 0 <= k < |keys| ==> keys[k] in Keys(a.fields) && keys[k] in Keys(b.fields)
    ensures Members(a, keys, i) == Members(b, keys, i)
    decreases a, 0, |keys| - i
  {
    if i < |keys| {
      SameText(a.fields[IndexOf(a.fields, keys[i])].value, b.fields[IndexOf(b.fields, keys[i])].value);
      SameMembers(a, b, keys, i + 1);
    }
  }

  // ---------- Same text, same value ----------

  /** What may follow a value inside a larger text. */
  predicate Delimited(r: Text) {
    r == [] || r[0] in {COMMA, CLOSE_BRACKET, CLOSE_BRACE}
  }

  lemma CancelLeft(p: Text, x: Text, y: Text)
    requires p + x == p + y
    ensures x == y
  {
    assert (p + x)[|p|..] == x;
    assert (p + y)[|p|..] == y;
  }

  /** The first unit of a value's text. */
  function FirstUnit(v: Json): Unit {
    match v
    case Null => 110
    case Bool(b) => if b then 116 else 102
    case Number(numeral) => numeral[0]
    case String(_) => QUOTE
    case Array(_) => OPEN_BRACKET
    case Object(_) => OPEN_BRACE
  }

  lemma StartsWith(v: Json, r: Text)
    ensures Serialize(v) + r != [] && (Serialize(v) + r)[0] == FirstUnit(v)
    ensures Serialize(v) != []
  {
  }

  /** How many units at the start of `x` can belong to a number. */
  ghost function Span(x: Text): nat {
    if x != [] && NumberUnit(x[0]) then 1 + Span(x[1..]) else 0
  }

  lemma {:induction false} NumeralSpan(a: Text, r: Text)
    requires Delimited(r) && forall i :: 0 <= i < |a| ==> NumberUnit(a[i])
    ensures Span(a + r) == |a|
  {
    if a == [] {
      assert a + r == r;
    } else {
      assert (a + r)[1..] == a[1..] + r;
      NumeralSpan(a[1..], r);
    }
  }

  lemma NumeralUnambiguous(a: Numeral, b: Numeral, r: Text, t: Text)
    requires Delimited(r) && Delimited(t) && a + r == b + t
    ensures a == b && r == t
  {
    NumeralSpan(a, r);
    NumeralSpan(b, t);
    assert (a + r)[..|a|] == a && (b + t)[..|b|] == b;
    CancelLeft(a, r, t);
  }

  /**
   A value's text cannot be continued into another value's text: where two of them agree up to a
   delimiter, the values are the same and so is everything that follows.
  */
  lemma {:induction false} Unambiguous(a: Json, b: Json, r: Text, t: Text)
    requires Legal(a) && Legal(b) && Delimited(r) && Delimited(t)
    requires Serialize(a) + r == Serialize(b) + t
    ensures SameValue(a, b) && r == t
    decreases a, 1
  {
    StartsWith(a, r);
    StartsWith(b, t);
    match a
    case Null => CancelLeft(NULL_TEXT, r, t);
    case Bool(x) => CancelLeft(if x then TRUE_TEXT else FALSE_TEXT, r, t);
    case Number(numeral) => NumeralUnambiguous(numeral, b.numeral, r, t);
    case String(s) => QuoteUnambiguous(s, b.s, r, t);
    case Array(elems) =>
      Opened([OPEN_BRACKET], Elements(a, 0), Elements(b, 0), r, t);
      ElementsUnambiguous(a, b, 0, r, t);
      ElementsSameAt(a, b, 0);
    case Object(fields) =>
      var ka, kb := SortedKeys(a.fields), SortedKeys(b.fields);
      SortAscends(Keys(a.fields));
      SortAscends(Keys(b.fields));
      Opened([OPEN_BRACE], Members(a, ka, 0), Members(b, kb, 0), r, t);
      MembersUnambiguous(a, b, ka, kb, 0, r, t);
      MembersSameAt(a, b, ka, kb, 0);
      assert ka == kb;
      MembersAgree(a, b, ka);
  }

  lemma Opened(open: Text, x: Text, y: Text, r: Text, t: Text)
    requires open + x + r == open + y + t
    ensures x + r == y + t
  {
    Regroup(open, x, r);
    Regroup(open, y, t);
    CancelLeft(open, x + r, y + t);
  }

  lemma ElementsStart(v: Json, i: nat, r: Text)
    requires v.Array? && i <= |v.elems|
    ensures Elements(v, i) != []
    ensures (Elements(v, i) + r)[0] == CLOSE_BRACKET <==> i == |v.elems|
    ensures i > 0 ==> Delimited(Elements(v, i) + r)
  {
    if 0 == i < |v.elems| {
      StartsWith(v.elems[i], Elements(v, i + 1));
    }
  }

  lemma ElementsUnfold(v: Json, i: nat, r: Text)
    requires v.Array? && i < |v.elems|
    ensures Elements(v, i) + r == Separator(i) + (Serialize(v.elems[i]) + (Elements(v, i + 1) + r))
  {
    Regroup(Separator(i) + Serialize(v.elems[i]), Elements(v, i + 1), r);
    Regroup(Separator(i), Serialize(v.elems[i]), Elements(v, i + 1) + r);
  }

  ghost predicate ElementsSame(a: Json, b: Json, i: nat)
    requires a.Array? && b.Array? && i <= |a.elems| && i <= |b.elems|
    decreases |a.elems| - i
  {
    if i < |a.elems| && i < |b.elems| then SameValue(a.elems[i], b.elems[i]) && ElementsSame(a, b, i + 1)
    else i == |a.elems| == |b.elems|
  }

  lemma {:induction false} ElementsSameAt(a: Json, b: Json, i: nat)
    requires a.Array? && b.Array? && i <= |a.elems| && i <= |b.elems| && ElementsSame(a, b, i)
    ensures |a.elems| == |b.elems| && forall j :: i <= j < |a.elems| ==> SameValue(a.elems[j], b.elems[j])
    decreases |a.elems| - i
  {
    if i < |a.elems| {
      ElementsSameAt(a, b, i + 1);
    }
  }

  lemma PeelElement(a: Json, b: Json, i: nat, r: Text, t: Text)
    requires a.Array? && b.Array? && i < |a.elems| && i < |b.elems|
    requires Elements(a, i) + r == Elements(b, i) + t
    ensures Serialize(a.elems[i]) + (Elements(a, i + 1) + r) == Serialize(b.elems[i]) + (Elements(b, i + 1) + t)
    ensures Delimited(Elements(a, i + 1) + r) && Delimited(Elements(b, i + 1) + t)
  {
    ElementsUnfold(a, i, r);
    ElementsUnfold(b, i, t);
    CancelLeft(Separator(i), Serialize(a.elems[i]) + (Elements(a, i + 1) + r), Serialize(b.elems[i]) + (Elements(b, i + 1) + t));
    ElementsStart(a, i + 1, r);
    ElementsStart(b, i + 1, t);
  }

  lemma {:induction false} ElementsUnambiguous(a: Json, b: Json, i: nat, r: Text, t: Text)
    requires a.Array? && b.Array? && i <= |a.elems| && i <= |b.elems|
    requires Legal(a) && Legal(b)
    requires Elements(a, i) + r == Elements(b, i) + t
    ensures ElementsSame(a, b, i) && r == t
    decreases a, 0, |a.elems| - i
  {
    ElementsStart(a, i, r);
    ElementsStart(b, i, t);
    if i == |a.elems| {
      CancelLeft([CLOSE_BRACKET], r, t);
    } else {
      PeelElement(a, b, i, r, t);
      Unambiguous(a.elems[i], b.elems[i], Elements(a, i + 1) + r, Elements(b, i + 1) + t);
      ElementsUnambiguous(a, b, i + 1, r, t);
    }
  }

  ghost predicate KeysOf(v: Json, keys: seq<Text>) {
    v.Object? && forall k :: 0 <= k < |keys| ==> keys[k] in Keys(v.fields)
  }

  ghost function Member(v: Json, key: Text): Json
    requires v.Object? && key in Keys(v.fields)
  {
    v.fields[IndexOf(v.fields, key)].value
  }

  lemma MembersStart(v: Json, keys: seq<Text>, i: nat, r: Text)
    requires KeysOf(v, keys) && i <= |keys|
    ensures Members(v, keys, i) != []
    ensures (Members(v, keys, i) + r)[0] == CLOSE_BRACE <==> i == |keys|
    ensures i > 0 ==> Delimited(Members(v, keys, i) + r)
  {
  }

  lemma MembersUnfold(v: Json, keys: seq<Text>, i: nat, r: Text)
    requires KeysOf(v, keys) && i < |keys|
    ensures Members(v, keys, i) + r
         == Separator(i) + (Quote(keys[i]) + ([COLON] + (Serialize(Member(v, keys[i])) + (Members(v, keys, i + 1) + r))))
  {
    var value, rest := Serialize(Member(v, keys[i])), Members(v, keys, i + 1);
    Regroup(Separator(i) + Quote(keys[i]) + [COLON] + value, rest, r);
    Regroup(Separator(i) + Quote(keys[i]) + [COLON], value, rest + r);
    Regroup(Separator(i) + Quote(keys[i]), [COLON], value + (rest + r));
    Regroup(Separator(i), Quote(keys[i]), [COLON] + (value + (rest + r)));
  }

  ghost predicate MembersSame(a: Json, b: Json, ka: seq<Text>, kb: seq<Text>, i: nat)
    requires KeysOf(a, ka) && KeysOf(b, kb) && i <= |ka| && i <= |kb|
    decreases |ka| - i
  {
    if i < |ka| && i < |kb| then
      ka[i] == kb[i] && SameValue(Member(a, ka[i]), Member(b, kb[i])) && MembersSame(a, b, ka, kb, i + 1)
    else i == |ka| == |kb|
  }

  lemma {:induction false} MembersSameAt(a: Json, b: Json, ka: seq<Text>, kb: seq<Text>, i: nat)
    requires KeysOf(a, ka) && KeysOf(b, kb) && i <= |ka| && i <= |kb| && MembersSame(a, b, ka, kb, i)
    ensures |ka| == |kb|
    ensures forall j :: i <= j < |ka| ==> ka[j] == kb[j] && SameValue(Member(a, ka[j]), Member(b, kb[j]))
    decreases |ka| - i
  {
    if i < |ka| {
      MembersSameAt(a, b, ka, kb, i + 1);
    }
  }

  lemma PeelMember(a: Json, b: Json, ka: seq<Text>, kb: seq<Text>, i: nat, r: Text, t: Text)
    requires KeysOf(a, ka) && KeysOf(b, kb) && i < |ka| && i < |kb|
    requires Members(a, ka, i) + r == Members(b, kb, i) + t
    ensures ka[i] == kb[i]
    ensures Serialize(Member(a, ka[i])) + (Members(a, ka, i + 1) + r)
         == Serialize(Member(b, kb[i])) + (Members(b, kb, i + 1) + t)
    ensures Delimited(Members(a, ka, i + 1) + r) && Delimited(Members(b, kb, i + 1) + t)
  {
    var xa := Serialize(Member(a, ka[i])) + (Members(a, ka, i + 1) + r);
    var xb := Serialize(Member(b, kb[i])) + (Members(b, kb, i + 1) + t);
    MembersUnfold(a, ka, i, r);
    MembersUnfold(b, kb, i, t);
    CancelLeft(Separator(i), Quote(ka[i]) + ([COLON] + xa), Quote(kb[i]) + ([COLON] + xb));
    QuoteUnambiguous(ka[i], kb[i], [COLON] + xa, [COLON] + xb);
    CancelLeft([COLON], xa, xb);
    MembersStart(a, ka, i + 1, r);
    MembersStart(b, kb, i + 1, t);
  }

  lemma {:induction false} MembersUnambiguous(a: Json, b: Json, ka: seq<Text>, kb: seq<Text>, i: nat, r: Text, t: Text)
    requires KeysOf(a, ka) && KeysOf(b, kb) && i <= |ka| && i <= |kb|
    requires Legal(a) && Legal(b)
    requires Members(a, ka, i) + r == Members(b, kb, i) + t
    ensures MembersSame(a, b, ka, kb, i) && r == t
    decreases a, 0, |ka| - i
  {
    MembersStart(a, ka, i, r);
    MembersStart(b, kb, i, t);
    if i == |ka| {
      CancelLeft([CLOSE_BRACE], r, t);
    } else {
      PeelMember(a, b, ka, kb, i, r, t);
      Unambiguous(Member(a, ka[i]), Member(b, kb[i]), Members(a, ka, i + 1) + r, Members(b, kb, i + 1) + t);
      MembersUnambiguous(a, b, ka, kb, i + 1, r, t);
    }
  }

  lemma IndexIsUnique(fields: seq<Field>, i: nat)
    requires DistinctKeys(fields) && i < |fields|
    ensures fields[i].key in Keys(fields) && IndexOf(fields, fields[i].key) == i
  {
    assert Keys(fields)[i] == fields[i].key;
    var j := IndexOf(fields, fields[i].key);
    assert Keys(fields)[j] == fields[j].key;
  }

  lemma MembersAgree(a: Json, b: Json, keys: seq<Text>)
    requires a.Object? && b.Object? && DistinctKeys(a.fields) && DistinctKeys(b.fields)
    requires forall k :: k in keys <==> k in Keys(a.fields)
    requires forall k :: k in keys <==> k in Keys(b.fields)
    requires forall j :: 0 <= j < |keys| ==> SameValue(Member(a, keys[j]), Member(b, keys[j]))
    ensures SameValue(a, b)
  {
    forall i, j | 0 <= i < |a.fields| && 0 <= j < |b.fields| && a.fields[i].key == b.fields[j].key
      ensures SameValue(a.fields[i].value, b.fields[j].value)
    {
      IndexIsUnique(a.fields, i);
      IndexIsUnique(b.fields, j);
      var k :| 0 <= k < |keys| && keys[k] == a.fields[i].key;
    }
  }

  /** Two JSON values have the same canonical text if and only if they are the same value. */
  lemma CanonicalTextIsExact(a: Json, b: Json)
    requires Legal(a) && Legal(b)
    ensures Serialize(a) == Serialize(b) <==> SameValue(a, b)
  {
    if SameValue(a, b) {
      SameText(a, b);
    }
    if Serialize(a) == Serialize(b) {
      assert Serialize(a) + [] == Serialize(b) + [];
      Unambiguous(a, b, [], []);
    }
  }
}
