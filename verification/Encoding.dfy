/** Identity encodings (cmd/yeoul/merge.go, pkg/yeoul/id.go): texts that stand for
    part lists, JSON trees and graph edges, and never for two of them. A string is a
    sequence of bytes here, so its length counts bytes. */
module Encoding {
  import opened Text
  import opened Sorting
  import opened Records

  // ----- part lists -----

  /** "%d:%s|" */
  function Part(part: string): string {
    Decimal(|part|) + ":" + part + "|"
  }

  function EncodeParts(parts: seq<string>): string {
    if parts == [] then "" else Part(parts[0]) + EncodeParts(parts[1..])
  }

  lemma {:induction false} EncodeAppend(parts: seq<string>, part: string)
    ensures EncodeParts(parts + [part]) == EncodeParts(parts) + Part(part)
  {
    if parts == [] {
      assert parts + [part] == [part];
    } else {
      assert (parts + [part])[1..] == parts[1..] + [part];
      EncodeAppend(parts[1..], part);
    }
  }

  /** encodeIdentityParts */
  method EncodeIdentityParts(parts: seq<string>) returns (text: string)
    ensures text == EncodeParts(parts)
  {
    text := "";
    for i := 0 to |parts|
      invariant text == EncodeParts(parts[..i])
    {
      EncodeAppend(parts[..i], parts[i]);
      assert parts[..i] + [parts[i]] == parts[..i + 1];
      text := text + Part(parts[i]);
    }
    assert parts[..|parts|] == parts;
  }

  /** A length-prefixed part cannot be confused with another one, whatever bytes it and
      the text after it contain. */
  lemma PartUnique(a: string, r: string, b: string, s: string)
    requires Decimal(|a|) + ":" + a + r == Decimal(|b|) + ":" + b + s
    ensures a == b && r == s
  {
    hide Decimal;
    DecimalWithout(|a|, ':');
    DecimalWithout(|b|, ':');
    Regroup(Decimal(|a|), a, r);
    Regroup(Decimal(|b|), b, s);
    SplitUnique(':', Decimal(|a|), a + r, Decimal(|b|), b + s);
    DecimalInjective(|a|, |b|);
    SameLengths(a, r, b, s);
  }

  lemma Regroup(d: string, a: string, r: string)
    ensures d + [':'] + (a + r) == d + ":" + a + r
  {
  }

  lemma SameLengths(a: string, r: string, b: string, s: string)
    requires |a| == |b| && a + r == b + s
    ensures a == b && r == s
  {
    assert a == (a + r)[..|a|] == (b + s)[..|a|] == b;
    assert r == (a + r)[|a|..] == (b + s)[|a|..] == s;
  }

  /** Two part lists get the same text only if they are equal. */
  lemma {:induction false} EncodePartsInjective(a: seq<string>, b: seq<string>)
    requires EncodeParts(a) == EncodeParts(b)
    ensures a == b
  {
    if a != [] && b != [] {
      var r, s := "|" + EncodeParts(a[1..]), "|" + EncodeParts(b[1..]);
      assert EncodeParts(a) == Decimal(|a[0]|) + ":" + a[0] + r;
      assert EncodeParts(b) == Decimal(|b[0]|) + ":" + b[0] + s;
      PartUnique(a[0], r, b[0], s);
      assert EncodeParts(a[1..]) == r[1..] == s[1..] == EncodeParts(b[1..]);
      EncodePartsInjective(a[1..], b[1..]);
      assert a == [a[0]] + a[1..] && b == [b[0]] + b[1..];
    }
  }

  // ----- composite IDs -----

  function JoinParts(parts: seq<string>): string {
    if parts == [] then "" else ":" + Decimal(|parts[0]|) + ":" + parts[0] + JoinParts(parts[1..])
  }

  lemma {:induction false} JoinAppend(parts: seq<string>, part: string)
    ensures JoinParts(parts + [part]) == JoinParts(parts) + ":" + Decimal(|part|) + ":" + part
  {
    hide Decimal;
    if parts == [] {
      assert parts + [part] == [part];
    } else {
      assert (parts + [part])[1..] == parts[1..] + [part];
      JoinAppend(parts[1..], part);
    }
  }

  /** compositeID */
  method CompositeID(prefix: string, parts: seq<string>) returns (id: string)
    ensures id == prefix + JoinParts(parts)
  {
    id := prefix;
    for i := 0 to |parts|
      invariant id == prefix + JoinParts(parts[..i])
    {
      JoinAppend(parts[..i], parts[i]);
      assert parts[..i] + [parts[i]] == parts[..i + 1];
      id := id + ":" + Decimal(|parts[i]|) + ":" + parts[i];
    }
    assert parts[..|parts|] == parts;
  }

  lemma {:induction false} JoinPartsInjective(a: seq<string>, b: seq<string>)
    requires JoinParts(a) == JoinParts(b)
    ensures a == b
  {
    hide Decimal;
    if a != [] && b != [] {
      var r, s := JoinParts(a[1..]), JoinParts(b[1..]);
      assert JoinParts(a)[1..] == Decimal(|a[0]|) + ":" + a[0] + r;
      assert JoinParts(b)[1..] == Decimal(|b[0]|) + ":" + b[0] + s;
      PartUnique(a[0], r, b[0], s);
      JoinPartsInjective(a[1..], b[1..]);
      assert a == [a[0]] + a[1..] && b == [b[0]] + b[1..];
    }
  }

  datatype GraphEdge = GraphEdge(typ: string, from: string, to: string)

  /** The ID under which a neighbourhood stores an edge. */
  function EdgeID(e: GraphEdge): string {
    "edge" + JoinParts([e.typ, e.from, e.to])
  }

  /** Distinct graph edges have distinct IDs, so storing edges by ID never overwrites
      one edge with another. */
  lemma EdgeIdsDistinct(a: GraphEdge, b: GraphEdge)
    requires EdgeID(a) == EdgeID(b)
    ensures a == b
  {
    assert JoinParts([a.typ, a.from, a.to]) == EdgeID(a)[|"edge"|..];
    assert JoinParts([b.typ, b.from, b.to]) == EdgeID(b)[|"edge"|..];
    var x, y := [a.typ, a.from, a.to], [b.typ, b.from, b.to];
    JoinPartsInjective(x, y);
    assert x[0] == y[0] && x[1] == y[1] && x[2] == y[2];
  }

  // ----- metadata trees -----

  /** How numbers and instants are printed. */
  datatype Print = Print(number: Float64 -> string, instant: int -> string)

  /** The printed form of a number determines it, and that of an instant. */
  ghost predicate Injective(p: Print) {
    (forall x, y :: p.number(x) == p.number(y) ==> x == y) && (forall x, y :: p.instant(x) == p.instant(y) ==> x == y)
  }

  function Signed(n: int): string {
    if n < 0 then "-" + Decimal(-n) else Decimal(n)
  }

  lemma SignedInjective(m: int, n: int)
    requires Signed(m) == Signed(n)
    ensures m == n
  {
    hide Decimal;
    var x, y := if m < 0 then -m else m, if n < 0 then -n else n;
    DecimalWithout(x, '-');
    DecimalWithout(y, '-');
    assert m < 0 ==> Signed(m)[0] == '-' && Signed(m)[1..] == Decimal(x);
    assert n < 0 ==> Signed(n)[0] == '-' && Signed(n)[1..] == Decimal(y);
    DecimalInjective(x, y);
  }

  /** Such printing exists, so what follows from it is about something. */
  lemma SomePrint() returns (p: Print)
    ensures Injective(p)
  {
    p := Print((n: Float64) => Signed(n), (n: int) => Signed(n));
    hide Signed;
    forall x: Float64, y: Float64 | p.number(x) == p.number(y)
      ensures x == y
    {
      SignedInjective(x, y);
    }
    forall x, y | p.instant(x) == p.instant(y)
      ensures x == y
    {
      SignedInjective(x, y);
    }
  }

  /** The field names of a metadata map. */
  function Names(fields: Metadata): set<string> {
    set k | k in fields :: NameOf(k)
  }

  lemma NamesAreKeys(fields: Metadata)
    ensures forall name :: name in Names(fields) ==> KeyNamed(name) in fields
    ensures forall k :: k in fields ==> NameOf(k) in Names(fields)
  {
    hide NameOf, KeyNamed;
  }

  ghost function FieldParts(value: Value, names: seq<string>, p: Print): seq<string>
    requires value.Obj? && forall name :: name in names ==> KeyNamed(name) in value.fields
    decreases value, 0, |names|
  {
    if names == [] then []
    else
      var last := names[|names| - 1];
      FieldParts(value, names[..|names| - 1], p) + [last, CanonicalValue(value.fields[KeyNamed(last)], p)]
  }

  ghost function ItemParts(value: Value, n: nat, p: Print): seq<string>
    requires value.List? && n <= |value.items|
    decreases value, 0, n
  {
    if n == 0 then [] else ItemParts(value, n - 1, p) + [CanonicalValue(value.items[n - 1], p)]
  }

  function TextParts(texts: seq<string>): seq<string> {
    if texts == [] then [] else TextParts(texts[..|texts| - 1]) + ["string:" + texts[|texts| - 1]]
  }

  /** canonicalValue. A list of strings and a generic list are both slices. */
  ghost function CanonicalValue(value: Value, p: Print): string
    decreases value, 1, 0
  {
    match value
    case Null => "nil"
    case Bool(b) => if b then "bool:true" else "bool:false"
    case Num(n) => "float64:" + p.number(n)
    case Text(s) => "string:" + s
    case Instant(at) => "time.Time:" + p.instant(at)
    case Texts(texts) => "list[" + EncodeParts(TextParts(texts)) + "]"
    case List(items) => "list[" + EncodeParts(ItemParts(value, |items|, p)) + "]"
    case Obj(fields) =>
      NamesAreKeys(fields);
      "map[" + EncodeParts(FieldParts(value, SortedSet(Names(fields)), p)) + "]"
  }

  method CanonicalText(value: Value, p: Print) returns (text: string)
    ensures text == CanonicalValue(value, p)
    decreases value
  {
    hide KeyNamed, NameOf;
    match value {
      case Null => text := "nil";
      case Bool(b) => text := if b then "bool:true" else "bool:false";
      case Num(n) => text := "float64:" + p.number(n);
      case Text(s) => text := "string:" + s;
      case Instant(at) => text := "time.Time:" + p.instant(at);
      case Texts(texts) =>
        var parts: seq<string> := [];
        for i := 0 to |texts|
          invariant parts == TextParts(texts[..i])
        {
          assert texts[..i + 1][..i] == texts[..i];
          parts := parts + ["string:" + texts[i]];
        }
        assert texts[..|texts|] == texts;
        var joined := EncodeIdentityParts(parts);
        text := "list[" + joined + "]";
      case List(items) =>
        var parts: seq<string> := [];
        for i := 0 to |items|
          invariant parts == ItemParts(value, i, p)
        {
          var part := CanonicalText(items[i], p);
          parts := parts + [part];
        }
        var joined := EncodeIdentityParts(parts);
        text := "list[" + joined + "]";
      case Obj(fields) =>
        NamesAreKeys(fields);
        var names := SortIds(Names(fields));
        var parts: seq<string> := [];
        for i := 0 to |names|
          invariant parts == FieldParts(value, names[..i], p)
        {
          assert names[..i + 1][..i] == names[..i];
          var part := CanonicalText(fields[KeyNamed(names[i])], p);
          parts := parts + [names[i], part];
        }
        assert names[..|names|] == names;
        var joined := EncodeIdentityParts(parts);
        text := "map[" + joined + "]";
    }
  }

  lemma {:induction false} FieldPartsAt(value: Value, names: seq<string>, p: Print, i: nat)
    requires value.Obj? && (forall name :: name in names ==> KeyNamed(name) in value.fields) && i < |names|
    ensures var parts := FieldParts(value, names, p);
            |parts| == 2 * |names| && parts[2 * i] == names[i] &&
            parts[2 * i + 1] == CanonicalValue(value.fields[KeyNamed(names[i])], p)
    decreases |names|
  {
    hide KeyNamed, CanonicalValue;
    var n := |names| - 1;
    if i < n {
      FieldPartsAt(value, names[..n], p, i);
    } else if n > 0 {
      FieldPartsAt(value, names[..n], p, 0);
    }
  }

  lemma FieldPartsLength(value: Value, names: seq<string>, p: Print)
    requires value.Obj? && forall name :: name in names ==> KeyNamed(name) in value.fields
    ensures |FieldParts(value, names, p)| == 2 * |names|
  {
    hide KeyNamed, CanonicalValue;
    if names != [] {
      FieldPartsAt(value, names, p, 0);
    }
  }

  lemma {:induction false} ItemPartsAt(value: Value, n: nat, p: Print, i: nat)
    requires value.List? && i < n <= |value.items|
    ensures var parts := ItemParts(value, n, p);
            |parts| == n && parts[i] == CanonicalValue(value.items[i], p)
  {
    if i < n - 1 {
      ItemPartsAt(value, n - 1, p, i);
    } else if n > 1 {
      ItemPartsAt(value, n - 1, p, 0);
    }
  }

  lemma {:induction false} TextPartsAt(texts: seq<string>, i: nat)
    requires i < |texts|
    ensures |TextParts(texts)| == |texts| && TextParts(texts)[i] == "string:" + texts[i]
    decreases |texts|
  {
    var n := |texts| - 1;
    if i < n {
      TextPartsAt(texts[..n], i);
    } else if n > 0 {
      TextPartsAt(texts[..n], 0);
    }
  }

  // ----- what a canonical text determines -----

  predicate IsList(value: Value) {
    value.Texts? || value.List?
  }

  /** The items of either kind of list. */
  function ItemsOf(value: Value): seq<Value>
    requires IsList(value)
  {
    if value.List? then value.items else seq(|value.texts|, i requires 0 <= i < |value.texts| => Records.Text(value.texts[i]))
  }

  /** Equal, except that a list of strings equals a generic list of the same strings:
      both are slices to the encoder. */
  ghost predicate Same(a: Value, b: Value)
    decreases a
  {
    match a
    case Texts(_) => IsList(b) && ItemsOf(a) == ItemsOf(b)
    case List(items) =>
      IsList(b) && |items| == |ItemsOf(b)| && forall i :: 0 <= i < |items| ==> Same(items[i], ItemsOf(b)[i])
    case Obj(fields) => b.Obj? && fields.Keys == b.fields.Keys && forall k :: k in fields ==> Same(fields[k], b.fields[k])
    case _ => a == b
  }

  ghost function ListParts(value: Value, p: Print): seq<string>
    requires IsList(value)
  {
    if value.List? then ItemParts(value, |value.items|, p) else TextParts(value.texts)
  }

  lemma ListPartsAre(value: Value, p: Print)
    requires IsList(value)
    ensures CanonicalValue(value, p) == "list[" + EncodeParts(ListParts(value, p)) + "]"
    ensures |ListParts(value, p)| == |ItemsOf(value)|
    ensures forall i :: 0 <= i < |ItemsOf(value)| ==> ListParts(value, p)[i] == CanonicalValue(ItemsOf(value)[i], p)
  {
    hide EncodeParts;
    var n := |ItemsOf(value)|;
    if n > 0 && value.List? {
      ItemPartsAt(value, n, p, 0);
    } else if n > 0 {
      TextPartsAt(value.texts, 0);
    }
    forall i | 0 <= i < n
      ensures ListParts(value, p)[i] == CanonicalValue(ItemsOf(value)[i], p)
    {
      if value.List? {
        ItemPartsAt(value, n, p, i);
      } else {
        TextPartsAt(value.texts, i);
      }
    }
  }

  /** The first byte of a canonical text tells the kind of value. */
  function FirstByte(value: Value): char {
    match value
    case Null => 'n'
    case Bool(_) => 'b'
    case Num(_) => 'f'
    case Text(_) => 's'
    case Instant(_) => 't'
    case Texts(_) => 'l'
    case List(_) => 'l'
    case Obj(_) => 'm'
  }

  lemma StartsWith(value: Value, p: Print)
    ensures CanonicalValue(value, p) != "" && CanonicalValue(value, p)[0] == FirstByte(value)
  {
    hide EncodeParts, ItemParts, FieldParts, TextParts, SortedSet, NameOf, KeyNamed;
  }

  lemma Strip(open_: string, a: string, b: string, close: string)
    requires open_ + a + close == open_ + b + close
    ensures a == b
  {
    assert a == (open_ + a + close)[|open_|..|open_| + |a|];
    assert |a| == |b|;
    assert b == (open_ + b + close)[|open_|..|open_| + |b|];
  }

  /** Scalars are told apart by their texts. */
  lemma ScalarSame(a: Value, b: Value, p: Print)
    requires Injective(p) && !IsList(a) && !a.Obj?
    ensures CanonicalValue(a, p) == CanonicalValue(b, p) <==> a == b
  {
    StartsWith(a, p);
    StartsWith(b, p);
    hide EncodeParts, ItemParts, FieldParts, TextParts, SortedSet, NameOf, KeyNamed;
    if CanonicalValue(a, p) == CanonicalValue(b, p) {
      match a
      case Null =>
      case Bool(x) => assert CanonicalValue(a, p)[5] == CanonicalValue(b, p)[5];
      case Num(x) => assert p.number(x) == CanonicalValue(a, p)[8..] == CanonicalValue(b, p)[8..] == p.number(b.n);
      case Text(s) => assert s == CanonicalValue(a, p)[7..] == CanonicalValue(b, p)[7..] == b.text;
      case Instant(x) => assert p.instant(x) == CanonicalValue(a, p)[10..] == CanonicalValue(b, p)[10..] == p.instant(b.at);
    }
  }

  lemma ListSame(a: Value, b: Value, p: Print)
    requires IsList(a) && IsList(b)
    ensures CanonicalValue(a, p) == CanonicalValue(b, p) <==>
            |ItemsOf(a)| == |ItemsOf(b)| &&
            forall i :: 0 <= i < |ItemsOf(a)| ==> CanonicalValue(ItemsOf(a)[i], p) == CanonicalValue(ItemsOf(b)[i], p)
  {
    hide EncodeParts, ListParts, CanonicalValue, ItemsOf;
    ListPartsAre(a, p);
    ListPartsAre(b, p);
    if CanonicalValue(a, p) == CanonicalValue(b, p) {
      Strip("list[", EncodeParts(ListParts(a, p)), EncodeParts(ListParts(b, p)), "]");
      EncodePartsInjective(ListParts(a, p), ListParts(b, p));
    }
    if |ItemsOf(a)| == |ItemsOf(b)| &&
       forall i :: 0 <= i < |ItemsOf(a)| ==> CanonicalValue(ItemsOf(a)[i], p) == CanonicalValue(ItemsOf(b)[i], p) {
      assert ListParts(a, p) == ListParts(b, p);
    }
  }

  ghost function ObjParts(value: Value, p: Print): seq<string>
    requires value.Obj?
  {
    NamesAreKeys(value.fields);
    FieldParts(value, SortedSet(Names(value.fields)), p)
  }

  lemma ObjPartsAre(value: Value, p: Print)
    requires value.Obj?
    ensures CanonicalValue(value, p) == "map[" + EncodeParts(ObjParts(value, p)) + "]"
    ensures var names := SortedSet(Names(value.fields));
            |ObjParts(value, p)| == 2 * |names| &&
            forall i :: 0 <= i < |names| ==>
              ObjParts(value, p)[2 * i] == names[i] && KeyNamed(names[i]) in value.fields &&
              ObjParts(value, p)[2 * i + 1] == CanonicalValue(value.fields[KeyNamed(names[i])], p)
  {
    hide EncodeParts, NameOf, KeyNamed, SortedSet, Names;
    NamesAreKeys(value.fields);
    var names := SortedSet(Names(value.fields));
    FieldPartsLength(value, names, p);
    forall i | 0 <= i < |names|
      ensures ObjParts(value, p)[2 * i] == names[i] && KeyNamed(names[i]) in value.fields
      ensures ObjParts(value, p)[2 * i + 1] == CanonicalValue(value.fields[KeyNamed(names[i])], p)
    {
      FieldPartsAt(value, names, p, i);
    }
  }

  /** The position of a key among the sorted names. */
  lemma PlaceOfKey(fields: Metadata, k: MetaKey) returns (i: nat)
    requires k in fields
    ensures i < |SortedSet(Names(fields))| && KeyNamed(SortedSet(Names(fields))[i]) == k
  {
    hide NameOf, KeyNamed;
    assert NameOf(k) in SortedSet(Names(fields));
    i :| 0 <= i < |SortedSet(Names(fields))| && SortedSet(Names(fields))[i] == NameOf(k);
  }

  lemma ObjSame(a: Value, b: Value, p: Print)
    requires a.Obj? && b.Obj?
    ensures CanonicalValue(a, p) == CanonicalValue(b, p) <==>
            a.fields.Keys == b.fields.Keys &&
            forall k :: k in a.fields ==> CanonicalValue(a.fields[k], p) == CanonicalValue(b.fields[k], p)
  {
    hide EncodeParts, ObjParts, CanonicalValue, SortedSet, NameOf, KeyNamed, Names;
    ObjPartsAre(a, p);
    ObjPartsAre(b, p);
    if CanonicalValue(a, p) == CanonicalValue(b, p) {
      Strip("map[", EncodeParts(ObjParts(a, p)), EncodeParts(ObjParts(b, p)), "]");
      EncodePartsInjective(ObjParts(a, p), ObjParts(b, p));
      SameParts(a, b, p);
    }
    if a.fields.Keys == b.fields.Keys &&
       forall k :: k in a.fields ==> CanonicalValue(a.fields[k], p) == CanonicalValue(b.fields[k], p) {
      SameObj(a, b, p);
    }
  }

  lemma SameParts(a: Value, b: Value, p: Print)
    requires a.Obj? && b.Obj? && ObjParts(a, p) == ObjParts(b, p)
    ensures a.fields.Keys == b.fields.Keys
    ensures forall k :: k in a.fields ==> CanonicalValue(a.fields[k], p) == CanonicalValue(b.fields[k], p)
  {
    hide EncodeParts, ObjParts, CanonicalValue, SortedSet, NameOf, KeyNamed, Names;
    ObjPartsAre(a, p);
    ObjPartsAre(b, p);
    forall k | k in a.fields
      ensures k in b.fields && CanonicalValue(a.fields[k], p) == CanonicalValue(b.fields[k], p)
    {
      var i := PlaceOfKey(a.fields, k);
      assert ObjParts(a, p)[2 * i] == ObjParts(b, p)[2 * i] && ObjParts(a, p)[2 * i + 1] == ObjParts(b, p)[2 * i + 1];
    }
    forall k | k in b.fields
      ensures k in a.fields
    {
      var i := PlaceOfKey(b.fields, k);
      assert ObjParts(a, p)[2 * i] == ObjParts(b, p)[2 * i];
    }
  }

  lemma {:induction false} SameFieldParts(a: Value, b: Value, names: seq<string>, p: Print)
    requires a.Obj? && b.Obj?
    requires forall name :: name in names ==> KeyNamed(name) in a.fields && KeyNamed(name) in b.fields
    requires forall k :: k in a.fields && k in b.fields ==> CanonicalValue(a.fields[k], p) == CanonicalValue(b.fields[k], p)
    ensures FieldParts(a, names, p) == FieldParts(b, names, p)
    decreases |names|
  {
    hide CanonicalValue, KeyNamed;
    if names != [] {
      SameFieldParts(a, b, names[..|names| - 1], p);
    }
  }

  lemma SameObj(a: Value, b: Value, p: Print)
    requires a.Obj? && b.Obj? && a.fields.Keys == b.fields.Keys
    requires forall k :: k in a.fields ==> CanonicalValue(a.fields[k], p) == CanonicalValue(b.fields[k], p)
    ensures CanonicalValue(a, p) == CanonicalValue(b, p)
  {
    hide CanonicalValue, SortedSet, NameOf, KeyNamed, FieldParts, EncodeParts;
    ObjPartsAre(a, p);
    ObjPartsAre(b, p);
    NamesAreKeys(a.fields);
    NamesAreKeys(b.fields);
    assert Names(a.fields) == Names(b.fields);
    SameFieldParts(a, b, SortedSet(Names(a.fields)), p);
  }

  /** Two metadata trees of any depth get the same canonical text exactly if they are the
      same, up to the kind of their lists of strings. */
  lemma {:induction false} CanonicalSame(a: Value, b: Value, p: Print)
    requires Injective(p)
    ensures CanonicalValue(a, p) == CanonicalValue(b, p) <==> Same(a, b)
    decreases a
  {
    hide CanonicalValue, Injective;
    StartsWith(a, p);
    StartsWith(b, p);
    if IsList(a) && IsList(b) {
      ListSame(a, b, p);
      forall i | 0 <= i < |ItemsOf(a)| && |ItemsOf(a)| == |ItemsOf(b)|
        ensures CanonicalValue(ItemsOf(a)[i], p) == CanonicalValue(ItemsOf(b)[i], p) <==>
                if a.Texts? then ItemsOf(a)[i] == ItemsOf(b)[i] else Same(ItemsOf(a)[i], ItemsOf(b)[i])
      {
        if a.Texts? {
          ScalarSame(ItemsOf(a)[i], ItemsOf(b)[i], p);
        } else {
          CanonicalSame(a.items[i], ItemsOf(b)[i], p);
        }
      }
    } else if a.Obj? && b.Obj? {
      ObjSame(a, b, p);
      forall k | k in a.fields && k in b.fields
        ensures CanonicalValue(a.fields[k], p) == CanonicalValue(b.fields[k], p) <==> Same(a.fields[k], b.fields[k])
      {
        CanonicalSame(a.fields[k], b.fields[k], p);
      }
    } else if !IsList(a) && !a.Obj? {
      ScalarSame(a, b, p);
    }
  }

  /** A tree as JSON decodes it: every list is generic. */
  ghost predicate Decoded(value: Value)
    decreases value
  {
    match value
    case Texts(_) => false
    case List(items) => forall i :: 0 <= i < |items| ==> Decoded(items[i])
    case Obj(fields) => forall k :: k in fields ==> Decoded(fields[k])
    case _ => true
  }

  /** On decoded trees the text determines the tree. */
  lemma {:induction false} DecodedSame(a: Value, b: Value)
    requires Decoded(a) && Decoded(b)
    ensures Same(a, b) <==> a == b
    decreases a
  {
    match a
    case List(items) =>
      if b.List? {
        forall i | 0 <= i < |items| && |items| == |b.items|
          ensures Same(items[i], b.items[i]) <==> items[i] == b.items[i]
        {
          DecodedSame(items[i], b.items[i]);
        }
      }
    case Obj(fields) =>
      if b.Obj? {
        forall k | k in fields && k in b.fields
          ensures Same(fields[k], b.fields[k]) <==> fields[k] == b.fields[k]
        {
          DecodedSame(fields[k], b.fields[k]);
        }
        if Same(a, b) {
          assert fields == b.fields;
        }
      }
    case _ =>
  }

  function Generic(texts: seq<string>): Value {
    List(seq(|texts|, i requires 0 <= i < |texts| => Records.Text(texts[i])))
  }

  /** The one identification that is left: however values are printed, every list of
      strings has the text of the generic list of the same strings. */
  lemma ListKindsMeet(texts: seq<string>, p: Print)
    ensures Texts(texts) != Generic(texts)
    ensures CanonicalValue(Texts(texts), p) == CanonicalValue(Generic(texts), p)
  {
    hide CanonicalValue;
    assert ItemsOf(Texts(texts)) == ItemsOf(Generic(texts));
    ListSame(Texts(texts), Generic(texts), p);
  }

  /** canonicalMetadata: an empty map has the empty text. */
  ghost function MetadataText(fields: Metadata, p: Print): string {
    if fields == map[] then "" else CanonicalValue(Obj(fields), p)
  }

  method CanonicalMetadata(fields: Metadata, p: Print) returns (text: string)
    ensures text == MetadataText(fields, p)
  {
    hide CanonicalValue;
    if fields == map[] {
      return "";
    }
    text := CanonicalText(Obj(fields), p);
  }

  /** The same for whole metadata maps, the empty one included. */
  lemma MetadataSame(a: Metadata, b: Metadata, p: Print)
    requires Injective(p)
    ensures MetadataText(a, p) == MetadataText(b, p) <==> Same(Obj(a), Obj(b))
    ensures Decoded(Obj(a)) && Decoded(Obj(b)) ==> (MetadataText(a, p) == MetadataText(b, p) <==> a == b)
  {
    hide CanonicalValue, Injective, Decoded, Same;
    StartsWith(Obj(a), p);
    StartsWith(Obj(b), p);
    CanonicalSame(Obj(a), Obj(b), p);
    EmptySame(a, b);
    if Decoded(Obj(a)) && Decoded(Obj(b)) {
      DecodedSame(Obj(a), Obj(b));
    }
  }

  lemma EmptySame(a: Metadata, b: Metadata)
    ensures Same(Obj(a), Obj(b)) ==> (a == map[] <==> b == map[])
    ensures a == b == map[] ==> Same(Obj(a), Obj(b))
  {
    assert Same(Obj(a), Obj(b)) ==> a.Keys == b.Keys;
    assert a == map[] <==> a.Keys == {};
    assert b == map[] <==> b.Keys == {};
  }
}
