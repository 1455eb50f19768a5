/**
 The printer as it meets host values: some cannot be written at all, and no array or object may be
 reached twice.  The guard is one shared set of identities that grows along the traversal.
*/
module CanonicalIdentity {
  import opened Wrappers
  import opened JsonText
  import opened CanonicalJson

  datatype Host =
    | HNull
    | HBool(b: bool)
    | HNumber(numeral: Numeral)
    | HNonFinite
    | HString(s: Text)
    | HForeign  // undefined, functions, symbols, big integers
    | HArray(id: nat, plain: bool, elems: seq<Host>)
    | HObject(id: nat, plain: bool, fields: seq<HField>)

  datatype HField = HField(key: Text, value: Host)

  predicate Container(h: Host) {
    h.HArray? || h.HObject?
  }

  function HKeys(fields: seq<HField>): (r: seq<Text>)
    ensures |r| == |fields| && forall i :: 0 <= i < |r| ==> r[i] == fields[i].key
  {
    seq(|fields|, i requires 0 <= i < |fields| => fields[i].key)
  }

  function KeyIndex(keys: seq<Text>, key: Text): (i: nat)
    requires key in keys
    ensures i < |keys| && keys[i] == key
  {
    if keys[0] == key then 0 else 1 + KeyIndex(keys[1..], key)
  }

  function TraversalKeys(fields: seq<HField>): (keys: seq<Text>)
    ensures forall i :: 0 <= i < |keys| ==> keys[i] in HKeys(fields)
  {
    SortMembersOnly(HKeys(fields));
    SortKeys(HKeys(fields))
  }

  function ChildCount(h: Host): nat
    requires Container(h)
  {
    if h.HArray? then |h.elems| else |TraversalKeys(h.fields)|
  }

  /** The children in the order in which the printer visits them: object members by sorted key. */
  function Child(h: Host, i: nat): (c: Host)
    requires Container(h) && i < ChildCount(h)
    ensures c < h
  {
    if h.HArray? then h.elems[i]
    else h.fields[KeyIndex(HKeys(h.fields), TraversalKeys(h.fields)[i])].value
  }

  function Prefix(h: Host, i: nat): Text
    requires Container(h) && i < ChildCount(h)
  {
    if h.HArray? then Separator(i) else Separator(i) + Quote(TraversalKeys(h.fields)[i]) + [COLON]
  }

  function Close(h: Host): Text
    requires Container(h)
  {
    if h.HArray? then [CLOSE_BRACKET] else [CLOSE_BRACE]
  }

  function Open(h: Host): Text
    requires Container(h)
  {
    if h.HArray? then [OPEN_BRACKET] else [OPEN_BRACE]
  }

  /** The printer with its set of identities seen so far; `None` is the rejected input. */
  function Print(h: Host, seen: set<nat>): Option<(Text, set<nat>)>
    decreases h, 1
  {
    match h
    case HNull => Some((NULL_TEXT, seen))
    case HBool(b) => Some((if b then TRUE_TEXT else FALSE_TEXT, seen))
    case HNumber(numeral) => Some((numeral, seen))
    case HString(s) => Some((Quote(s), seen))
    case HNonFinite => None
    case HForeign => None
    case _ =>
      if h.id in seen || !h.plain then None
      else
        match PrintChildren(h, 0, seen + {h.id})
        case None => None
        case Some((text, after)) => Some((Open(h) + text, after))
  }

  function PrintChildren(h: Host, i: nat, seen: set<nat>): Option<(Text, set<nat>)>
    requires Container(h) && i <= ChildCount(h)
    decreases h, 0, ChildCount(h) - i
  {
    if i == ChildCount(h) then Some((Close(h), seen))
    else
      match Print(Child(h, i), seen)
      case None => None
      case Some((text, between)) =>
        match PrintChildren(h, i + 1, between)
        case None => None
        case Some((rest, after)) => Some((Prefix(h, i) + text + rest, after))
  }

  // ---------- What is accepted ----------

  ghost predicate Printable(h: Host)
    decreases h
  {
    match h
    case HNonFinite => false
    case HForeign => false
    case HArray(_, plain, elems) => plain && forall i :: 0 <= i < |elems| ==> Printable(elems[i])
    case HObject(_, plain, fields) => plain && forall i :: 0 <= i < |fields| ==> Printable(fields[i].value)
    case _ => true
  }

  ghost function Identities(h: Host): set<nat>
    decreases h, 1
  {
    if Container(h) then {h.id} + IdentitiesFrom(h, 0) else {}
  }

  ghost function IdentitiesFrom(h: Host, i: nat): set<nat>
    requires Container(h) && i <= ChildCount(h)
    decreases h, 0, ChildCount(h) - i
  {
    if i == ChildCount(h) then {} else Identities(Child(h, i)) + IdentitiesFrom(h, i + 1)
  }

  /** No array or object occurs twice: neither inside itself nor in two different places. */
  ghost predicate Once(h: Host)
    decreases h, 1
  {
    Container(h) ==> h.id !in IdentitiesFrom(h, 0) && OnceFrom(h, 0)
  }

  ghost predicate OnceFrom(h: Host, i: nat)
    requires Container(h) && i <= ChildCount(h)
    decreases h, 0, ChildCount(h) - i
  {
    i < ChildCount(h) ==>
      Once(Child(h, i)) && Identities(Child(h, i)) !! IdentitiesFrom(h, i + 1) && OnceFrom(h, i + 1)
  }

  /** No object holds a key twice. */
  ghost predicate WellKeyed(h: Host)
    decreases h
  {
    match h
    case HArray(_, _, elems) => forall i :: 0 <= i < |elems| ==> WellKeyed(elems[i])
    case HObject(_, _, fields) =>
      AllDistinct(HKeys(fields)) && forall i :: 0 <= i < |fields| ==> WellKeyed(fields[i].value)
    case _ => true
  }

  /** The JSON value a printable host value stands for. */
  ghost function ValueOf(h: Host): Json
    requires Printable(h)
    decreases h
  {
    match h
    case HNull => Null
    case HBool(b) => Bool(b)
    case HNumber(numeral) => Number(numeral)
    case HString(s) => String(s)
    case HArray(_, _, elems) => Array(seq(|elems|, i requires 0 <= i < |elems| => ValueOf(elems[i])))
    case HObject(_, _, fields) =>
      Object(seq(|fields|, i requires 0 <= i < |fields| => Field(fields[i].key, ValueOf(fields[i].value))))
  }

  lemma SameKeys(h: Host)
    requires h.HObject? && Printable(h)
    ensures Keys(ValueOf(h).fields) == HKeys(h.fields)
    ensures SortedKeys(ValueOf(h).fields) == TraversalKeys(h.fields)
  {
    assert Keys(ValueOf(h).fields) == HKeys(h.fields);
  }

  lemma DistinctIndex(keys: seq<Text>, i: nat, j: nat)
    requires AllDistinct(keys) && i < |keys| && j < |keys| && keys[i] == keys[j]
    ensures i == j
  {
  }

  ghost function TextFrom(h: Host, i: nat): Text
    requires Container(h) && Printable(h) && i <= ChildCount(h)
  {
    if h.HArray? then CanonicalJson.Elements(ValueOf(h), i)
    else
      SameKeys(h);
      CanonicalJson.Members(ValueOf(h), TraversalKeys(h.fields), i)
  }

  lemma TextFromStep(h: Host, i: nat)
    requires Container(h) && Printable(h) && WellKeyed(h) && i < ChildCount(h)
    ensures Printable(Child(h, i))
    ensures TextFrom(h, i) == Prefix(h, i) + Serialize(ValueOf(Child(h, i))) + TextFrom(h, i + 1)
  {
    if h.HObject? {
      SameKeys(h);
      var key := TraversalKeys(h.fields)[i];
      DistinctIndex(HKeys(h.fields), IndexOf(ValueOf(h).fields, key), KeyIndex(HKeys(h.fields), key));
    }
  }

  lemma OpenText(h: Host)
    requires Container(h) && Printable(h)
    ensures Serialize(ValueOf(h)) == Open(h) + TextFrom(h, 0)
  {
    if h.HObject? {
      SameKeys(h);
    }
  }

  lemma CloseText(h: Host)
    requires Container(h) && Printable(h)
    ensures TextFrom(h, ChildCount(h)) == Close(h)
  {
    if h.HObject? {
      SameKeys(h);
    }
  }

  /**
   Printing succeeds exactly for values that can be written and in which nothing is reached twice
   or was seen before; it then yields the canonical text and adds the identities it passed.
  */
  lemma {:induction false} PrintExact(h: Host, seen: set<nat>)
    requires WellKeyed(h) && Printable(h)
    ensures Print(h, seen).Some? <==> Once(h) && Identities(h) !! seen
    ensures Print(h, seen).Some? ==> Print(h, seen).value == (Serialize(ValueOf(h)), seen + Identities(h))
    decreases h, 1
  {
    if Container(h) {
      if h.id !in seen {
        PrintChildrenExact(h, 0, seen + {h.id});
        OpenText(h);
        assert seen + {h.id} + IdentitiesFrom(h, 0) == seen + Identities(h);
      }
    } else {
      assert seen + {} == seen;
    }
  }

  /** A part prints exactly if it is free of repetitions and of what was seen; it adds its identities. */
  ghost predicate Exactly(r: Option<(Text, set<nat>)>, text: Text, ids: set<nat>, once: bool, seen: set<nat>) {
    && (r.Some? <==> once && ids !! seen)
    && (r.Some? ==> r.value == (text, seen + ids))
  }

  /** A child and the children after it print exactly together. */
  lemma BothExactly(child: Option<(Text, set<nat>)>, rest: Option<(Text, set<nat>)>, text: Text, more: Text,
                    ids: set<nat>, others: set<nat>, once: bool, onceMore: bool, seen: set<nat>, prefix: Text)
    requires Exactly(child, text, ids, once, seen)
    requires child.Some? ==> Exactly(rest, more, others, onceMore, seen + ids)
    ensures Exactly(if child.None? || rest.None? then None else Some((prefix + child.value.0 + rest.value.0, rest.value.1)),
                    prefix + text + more, ids + others, once && ids !! others && onceMore, seen)
  {
    assert seen + ids + others == seen + (ids + others);
  }

  lemma {:induction false} PrintChildrenExact(h: Host, i: nat, seen: set<nat>)
    requires Container(h) && WellKeyed(h) && Printable(h) && i <= ChildCount(h)
    ensures Exactly(PrintChildren(h, i, seen), TextFrom(h, i), IdentitiesFrom(h, i), OnceFrom(h, i), seen)
    decreases h, 0, ChildCount(h) - i
  {
    if i < ChildCount(h) {
      var c := Child(h, i);
      TextFromStep(h, i);
      PrintExact(c, seen);
      var child := Print(c, seen);
      var rest := if child.Some? then PrintChildren(h, i + 1, seen + Identities(c)) else None;
      if child.Some? {
        PrintChildrenExact(h, i + 1, seen + Identities(c));
      }
      BothExactly(child, rest, Serialize(ValueOf(c)), TextFrom(h, i + 1), Identities(c), IdentitiesFrom(h, i + 1),
                  Once(c), OnceFrom(h, i + 1), seen, Prefix(h, i));
    } else {
      CloseText(h);
      assert seen + {} == seen;
    }
  }

  /** A value with a part that cannot be written is always rejected. */
  lemma {:induction false} UnprintableRejected(h: Host, seen: set<nat>)
    requires WellKeyed(h) && !Printable(h)
    ensures Print(h, seen) == None
    decreases h, 1
  {
    if h.HArray? && h.plain {
      var i :| 0 <= i < |h.elems| && !Printable(h.elems[i]);
      assert Child(h, i) == h.elems[i];
      BadChildRejected(h, i, 0, seen + {h.id});
    } else if h.HObject? && h.plain {
      var j :| 0 <= j < |h.fields| && !Printable(h.fields[j].value);
      SortAscends(HKeys(h.fields));
      assert HKeys(h.fields)[j] in SortKeys(HKeys(h.fields));
      var i :| 0 <= i < |TraversalKeys(h.fields)| && TraversalKeys(h.fields)[i] == HKeys(h.fields)[j];
      DistinctIndex(HKeys(h.fields), j, KeyIndex(HKeys(h.fields), TraversalKeys(h.fields)[i]));
      BadChildRejected(h, i, 0, seen + {h.id});
    }
  }

  lemma {:induction false} BadChildRejected(h: Host, bad: nat, i: nat, seen: set<nat>)
    requires Container(h) && WellKeyed(h) && i <= bad < ChildCount(h) && !Printable(Child(h, bad))
    ensures PrintChildren(h, i, seen) == None
    decreases h, 0, bad - i
  {
    if i == bad {
      UnprintableRejected(Child(h, bad), seen);
    } else if Print(Child(h, i), seen).Some? {
      BadChildRejected(h, bad, i + 1, Print(Child(h, i), seen).value.1);
    }
  }

  /** The entry point, which starts from an empty set: exactly the writable trees are printed. */
  lemma CanonicalPrintExact(h: Host)
    requires WellKeyed(h)
    ensures Print(h, {}).Some? <==> Printable(h) && Once(h)
    ensures Print(h, {}).Some? ==> Print(h, {}).value.0 == Serialize(ValueOf(h))
  {
    if Printable(h) {
      PrintExact(h, {});
    } else {
      UnprintableRejected(h, {});
    }
  }
}
