/**
 * The canonical form behind the request fingerprint: `sortKeysDeep` rebuilds every object with its
 * keys assigned in sorted order.
 *
 * One key is special in JavaScript: assigning `__proto__` to a plain object creates no property.
 * So the canonical form decides equality up to key order of what is left without such keys
 * (`CanonicalIff`); bodies that never use the key are compared exactly (`CanonicalDecides`), and
 * `ProtoKeyIsLost` is the smallest pair it confuses.
 */
module CanonicalJson {

  type Name = seq<nat>

  /** "__proto__" in UTF-16 code units. */
  const PROTO: Name := [95, 95, 112, 114, 111, 116, 111, 95, 95]

  /** Arrays count as scalars: they are returned unchanged. */
  datatype Json = Scalar(text: nat) | Object(props: Props)

  /** Own properties in their enumeration order. */
  datatype Props = Empty | Prop(name: Name, value: Json, rest: Props)

  /** A value with the order of its keys forgotten. */
  datatype Tree = Leaf(text: nat) | Node(children: map<Name, Tree>)

  /** What a value means up to key order, properties named in `skip` left out at every level. */
  function Meaning(v: Json, skip: set<Name>): Tree {
    match v
    case Scalar(text) => Leaf(text)
    case Object(props) => Node(Children(props, skip))
  }

  function Children(p: Props, skip: set<Name>): map<Name, Tree> {
    match p
    case Empty => map[]
    case Prop(name, value, rest) =>
      if name in skip then Children(rest, skip) else Children(rest, skip)[name := Meaning(value, skip)]
  }

  function Names(p: Props): seq<Name> {
    match p
    case Empty => []
    case Prop(name, _, rest) => [name] + Names(rest)
  }

  /** No object has the same key twice. */
  predicate DistinctNames(v: Json) {
    v.Object? ==> DistinctProps(v.props)
  }

  predicate DistinctProps(p: Props) {
    p.Prop? ==> p.name !in Names(p.rest) && DistinctNames(p.value) && DistinctProps(p.rest)
  }

  /** The key `__proto__` occurs nowhere. */
  predicate ProtoFree(v: Json) {
    v.Object? ==> ProtoFreeProps(v.props)
  }

  predicate ProtoFreeProps(p: Props) {
    p.Prop? ==> p.name != PROTO && ProtoFree(p.value) && ProtoFreeProps(p.rest)
  }

  // ---------------------------------------------------------------- sorting names

  /** Array.prototype.sort on strings: by code unit, a prefix first. */
  predicate NameLess(a: Name, b: Name) {
    |b| > 0 && (|a| == 0 || a[0] < b[0] || (a[0] == b[0] && NameLess(a[1..], b[1..])))
  }

  lemma {:induction false} NameOrder(a: Name, b: Name, c: Name)
    ensures NameLess(a, b) || a == b || NameLess(b, a)
    ensures NameLess(a, b) && NameLess(b, c) ==> NameLess(a, c)
    ensures !NameLess(a, a)
  {
    if |a| > 0 && |b| > 0 {
      NameOrder(a[1..], b[1..], if |c| > 0 then c[1..] else []);
      assert a == [a[0]] + a[1..] && b == [b[0]] + b[1..];
    } else if |a| > 0 {
      NameOrder(a[1..], [], []);
    }
  }

  /** Two names are in order by the code units where they first differ, or because one is the start of the other. */
  lemma {:induction false} NameLessIff(a: Name, b: Name)
    ensures NameLess(a, b) <==>
      exists i :: 0 <= i <= |a| && i <= |b| && a[..i] == b[..i] && FirstDiffers(a, b, i)
  {
    if |a| > 0 && |b| > 0 && a[0] == b[0] {
      NameLessIff(a[1..], b[1..]);
      if NameLess(a, b) {
        var i :| 0 <= i <= |a[1..]| && i <= |b[1..]| && a[1..][..i] == b[1..][..i] && FirstDiffers(a[1..], b[1..], i);
        assert a[..i + 1] == [a[0]] + a[1..][..i] && b[..i + 1] == [b[0]] + b[1..][..i];
        assert FirstDiffers(a, b, i + 1);
      }
      forall i | 0 <= i <= |a| && i <= |b| && a[..i] == b[..i] && FirstDiffers(a, b, i)
        ensures NameLess(a, b)
      {
        assert i > 0;
        assert a[1..][..i - 1] == a[..i][1..] && b[1..][..i - 1] == b[..i][1..];
        assert FirstDiffers(a[1..], b[1..], i - 1);
      }
    } else {
      assert a[..0] == b[..0];
      if NameLess(a, b) { assert FirstDiffers(a, b, 0); }
      forall i | 0 <= i <= |a| && i <= |b| && a[..i] == b[..i] && FirstDiffers(a, b, i)
        ensures NameLess(a, b)
      {
        if i > 0 { assert a[..i][0] == b[..i][0]; }
      }
    }
  }

  /** After `i` equal code units `a` ends, or its next one is smaller. */
  predicate FirstDiffers(a: Name, b: Name, i: int)
    requires 0 <= i <= |a| && i <= |b|
  {
    i < |b| && (i == |a| || a[i] < b[i])
  }

  predicate SortedNames(s: seq<Name>) {
    forall i, j :: 0 <= i < j < |s| ==> NameLess(s[i], s[j])
  }

  function Insert(s: seq<Name>, x: Name): seq<Name> {
    if |s| == 0 then [x]
    else if NameLess(s[0], x) then [s[0]] + Insert(s[1..], x)
    else if s[0] == x then s
    else [x] + s
  }

  function Sort(s: seq<Name>): seq<Name> {
    if |s| == 0 then [] else Insert(Sort(s[1..]), s[0])
  }

  lemma {:induction false} InsertSorts(s: seq<Name>, x: Name)
    requires SortedNames(s)
    ensures SortedNames(Insert(s, x)) && forall y :: y in Insert(s, x) <==> y == x || y in s
  {
    if |s| > 0 {
      NameOrder(s[0], x, x);
      if NameLess(s[0], x) {
        InsertSorts(s[1..], x);
        var r := Insert(s[1..], x);
        assert s == [s[0]] + s[1..];
        assert forall i :: 0 <= i < |r| ==> r[i] in r;
      } else if s[0] != x {
        forall i | 0 <= i < |s| ensures NameLess(x, s[i]) { NameOrder(x, s[0], s[i]); }
      }
    }
  }

  lemma {:induction false} SortSorts(s: seq<Name>)
    ensures SortedNames(Sort(s)) && forall y :: y in Sort(s) <==> y in s
  {
    if |s| > 0 {
      SortSorts(s[1..]);
      InsertSorts(Sort(s[1..]), s[0]);
      assert s == [s[0]] + s[1..];
    }
  }

  lemma {:induction false} SortedUnique(a: seq<Name>, b: seq<Name>)
    requires SortedNames(a) && SortedNames(b) && forall x :: x in a <==> x in b
    ensures a == b
  {
    if |a| > 0 { assert a[0] in b; }
    if |b| > 0 { assert b[0] in a; }
    if |a| > 0 {
      NameOrder(a[0], b[0], a[0]);
      assert a[0] == b[0];
      forall x
        ensures x in a[1..] <==> x in b[1..]
      {
        NameOrder(a[0], a[0], a[0]);
        assert x in a <==> x == a[0] || x in a[1..];
        assert x in b <==> x == b[0] || x in b[1..];
      }
      SortedUnique(a[1..], b[1..]);
    }
  }

  // ---------------------------------------------------------------- sortKeysDeep

  /** Array-index names, which JavaScript enumerates first and in numeric order. */
  predicate IndexName(n: Name) {
    |n| > 0 && (forall i :: 0 <= i < |n| ==> 48 <= n[i] <= 57) && (|n| > 1 ==> n[0] != 48)
    && IndexValue(n) < 4294967295
  }

  function IndexValue(n: Name): int {
    if |n| == 0 then 0 else 10 * IndexValue(n[..|n| - 1]) + n[|n| - 1] - 48
  }

  /** Does a new property `n` enumerate before the existing property `m`? */
  predicate EnumeratesBefore(n: Name, m: Name) {
    IndexName(n) && (IndexName(m) ==> IndexValue(n) < IndexValue(m))
  }

  /** acc[name] = value on an object: in place if present, else at its enumeration position. */
  function Define(acc: Props, name: Name, value: Json): Props {
    match acc
    case Empty => Prop(name, value, Empty)
    case Prop(n, v, rest) =>
      if n == name then Prop(n, value, rest)
      else if EnumeratesBefore(name, n) && name !in Names(rest) then Prop(name, value, acc)
      else Prop(n, v, Define(rest, name, value))
  }

  /** Assigning `__proto__` sets the prototype, or nothing: no own property appears. */
  function Assign(acc: Props, name: Name, value: Json): Props {
    if name == PROTO then acc else Define(acc, name, value)
  }

  /** keys.reduce((acc, key) => { acc[key] = values[key]; return acc }, {}) */
  function AssignAll(names: seq<Name>, values: map<Name, Json>): Props
    requires forall n :: n in names ==> n in values
  {
    if |names| == 0 then Empty
    else
      var last := names[|names| - 1];
      Assign(AssignAll(names[..|names| - 1], values), last, values[last])
  }

  function SortKeysDeep(v: Json): Json {
    match v
    case Scalar(_) => v
    case Object(props) =>
      SortSorts(Names(props));
      Object(AssignAll(Sort(Names(props)), DeepValues(props)))
  }

  /** record[key], canonicalized, by key. */
  function DeepValues(p: Props): (m: map<Name, Json>)
    ensures forall n :: n in m <==> n in Names(p)
  {
    match p
    case Empty => map[]
    case Prop(name, value, rest) => DeepValues(rest)[name := SortKeysDeep(value)]
  }

  // ---------------------------------------------------------------- the canonical form keeps the meaning

  lemma {:induction false} DefineMeaning(acc: Props, name: Name, value: Json, skip: set<Name>)
    requires DistinctProps(acc)
    ensures Children(Define(acc, name, value), skip) ==
      if name in skip then Children(acc, skip) else Children(acc, skip)[name := Meaning(value, skip)]
    ensures forall n :: n in Names(Define(acc, name, value)) <==> n == name || n in Names(acc)
    ensures DistinctNames(value) ==> DistinctProps(Define(acc, name, value))
    ensures ProtoFreeProps(acc) && name != PROTO && ProtoFree(value) ==> ProtoFreeProps(Define(acc, name, value))
    decreases acc
  {
    match acc
    case Empty =>
    case Prop(n, v, rest) =>
      if n == name {
        ChildrenNames(rest, skip);
      } else if !(EnumeratesBefore(name, n) && name !in Names(rest)) {
        DefineMeaning(rest, name, value, skip);
      }
  }

  lemma {:induction false} ChildrenNames(p: Props, skip: set<Name>)
    ensures forall n :: n in Children(p, skip) <==> n in Names(p) && n !in skip
  {
    match p
    case Empty =>
    case Prop(_, _, rest) => ChildrenNames(rest, skip);
  }

  /** Assigning a list of names builds exactly their values, `__proto__` excepted. */
  lemma {:induction false} AssignAllMeaning(names: seq<Name>, values: map<Name, Json>, skip: set<Name>)
    requires forall n :: n in names ==> n in values
    requires forall n :: n in names ==> DistinctNames(values[n]) && ProtoFree(values[n])
    ensures var built := AssignAll(names, values);
      && DistinctProps(built) && ProtoFreeProps(built)
      && Children(built, skip) == map n | n in names && n != PROTO && n !in skip :: Meaning(values[n], skip)
  {
    if |names| > 0 {
      var prefix, last := names[..|names| - 1], names[|names| - 1];
      AssignAllMeaning(prefix, values, skip);
      assert last in names;
      assert forall n :: n in names <==> n in prefix || n == last;
      if last != PROTO {
        DefineMeaning(AssignAll(prefix, values), last, values[last], skip);
      }
    }
  }

  /** The canonical form is a sound object without `__proto__`, meaning what the value means without it. */
  lemma {:induction false} CanonicalMeaning(v: Json)
    requires DistinctNames(v)
    ensures DistinctNames(SortKeysDeep(v)) && ProtoFree(SortKeysDeep(v))
    ensures Meaning(SortKeysDeep(v), {}) == Meaning(v, {PROTO})
  {
    if v.Object? {
      var names, values := Sort(Names(v.props)), DeepValues(v.props);
      SortSorts(Names(v.props));
      DeepMeaning(v.props);
      AssignAllMeaning(names, values, {});
      ChildrenNames(v.props, {PROTO});
      assert Children(AssignAll(names, values), {}) == Children(v.props, {PROTO});
    }
  }

  lemma {:induction false} DeepMeaning(p: Props)
    requires DistinctProps(p)
    ensures forall n :: n in Names(p) ==> DistinctNames(DeepValues(p)[n]) && ProtoFree(DeepValues(p)[n])
    ensures forall n :: n in Names(p) && n != PROTO ==>
      n in Children(p, {PROTO}) && Meaning(DeepValues(p)[n], {}) == Children(p, {PROTO})[n]
  {
    if p.Prop? {
      CanonicalMeaning(p.value);
      DeepMeaning(p.rest);
    }
  }

  // ---------------------------------------------------------------- the meaning decides the canonical form

  lemma {:induction false} WithoutProtoNames(names: seq<Name>)
    ensures forall n :: n in WithoutProto(names) <==> n in names && n != PROTO
    ensures SortedNames(names) ==> SortedNames(WithoutProto(names))
  {
    if |names| > 0 {
      var prefix, last := names[..|names| - 1], names[|names| - 1];
      WithoutProtoNames(prefix);
      assert names == prefix + [last];
      if SortedNames(names) {
        forall n | n in WithoutProto(prefix) ensures NameLess(n, last) { assert n in prefix; }
      }
    }
  }

  /** `__proto__` never changes the built object, so it can be dropped from the list. */
  lemma {:induction false} AssignAllWithoutProto(names: seq<Name>, values: map<Name, Json>)
    requires forall n :: n in names ==> n in values
    ensures forall n :: n in WithoutProto(names) ==> n in names
    ensures AssignAll(names, values) == AssignAll(WithoutProto(names), values)
  {
    WithoutProtoNames(names);
    if |names| > 0 {
      var prefix, last := names[..|names| - 1], names[|names| - 1];
      AssignAllWithoutProto(prefix, values);
      if last != PROTO {
        assert WithoutProto(names)[..|WithoutProto(names)| - 1] == WithoutProto(prefix);
      } else {
        assert WithoutProto(names) == WithoutProto(prefix);
      }
    }
  }

  function WithoutProto(names: seq<Name>): seq<Name> {
    if |names| == 0 then []
    else
      var last := names[|names| - 1];
      WithoutProto(names[..|names| - 1]) + if last == PROTO then [] else [last]
  }

  lemma {:induction false} AssignAllCongruent(names: seq<Name>, a: map<Name, Json>, b: map<Name, Json>)
    requires forall n :: n in names ==> n in a && n in b && a[n] == b[n]
    ensures AssignAll(names, a) == AssignAll(names, b)
  {
    if |names| > 0 {
      AssignAllCongruent(names[..|names| - 1], a, b);
      assert names[|names| - 1] in names;
    }
  }

  lemma {:induction false} MeaningDecides(a: Json, b: Json)
    requires DistinctNames(a) && DistinctNames(b) && Meaning(a, {PROTO}) == Meaning(b, {PROTO})
    ensures SortKeysDeep(a) == SortKeysDeep(b)
    decreases a, 1
  {
    hide AssignAll, WithoutProto, Sort, SortedNames;
    if a.Object? {
      var p, q := a.props, b.props;
      ChildrenNames(p, {PROTO});
      ChildrenNames(q, {PROTO});
      SortSorts(Names(p));
      SortSorts(Names(q));
      AssignAllWithoutProto(Sort(Names(p)), DeepValues(p));
      AssignAllWithoutProto(Sort(Names(q)), DeepValues(q));
      WithoutProtoNames(Sort(Names(p)));
      WithoutProtoNames(Sort(Names(q)));
      var names := WithoutProto(Sort(Names(p)));
      forall n
        ensures n in names <==> n in WithoutProto(Sort(Names(q)))
      {
        assert n in Children(p, {PROTO}) <==> n in Children(q, {PROTO});
      }
      SortedUnique(names, WithoutProto(Sort(Names(q))));
      forall n | n in names
        ensures DeepValues(p)[n] == DeepValues(q)[n]
      {
        ValueDecides(p, q, n);
      }
      AssignAllCongruent(names, DeepValues(p), DeepValues(q));
    }
  }

  /** The value of key `n` in `p` has the canonical form of any property list whose `n` means the same. */
  lemma {:induction false} ValueDecides(p: Props, q: Props, n: Name)
    requires DistinctProps(p) && DistinctProps(q) && n in Names(p) && n in Names(q) && n != PROTO
    requires n in Children(p, {PROTO}) && n in Children(q, {PROTO})
    requires Children(p, {PROTO})[n] == Children(q, {PROTO})[n]
    ensures DeepValues(p)[n] == DeepValues(q)[n]
    decreases p, 0
  {
    if p.name == n {
      var w := Lookup(q, n);
      MeaningDecides(p.value, w);
    } else {
      ChildrenNames(p.rest, {PROTO});
      ValueDecides(p.rest, q, n);
    }
  }

  lemma {:induction false} Lookup(q: Props, n: Name) returns (w: Json)
    requires DistinctProps(q) && n in Names(q) && n != PROTO && n in Children(q, {PROTO})
    ensures DistinctNames(w) && Meaning(w, {PROTO}) == Children(q, {PROTO})[n] && SortKeysDeep(w) == DeepValues(q)[n]
  {
    if q.name == n {
      w := q.value;
    } else {
      ChildrenNames(q.rest, {PROTO});
      w := Lookup(q.rest, n);
    }
  }

  // ---------------------------------------------------------------- results

  /**
   * Two bodies have one canonical form exactly when, `__proto__` keys aside, they are equal up to key
   * order at every level.
   */
  lemma CanonicalIff(a: Json, b: Json)
    requires DistinctNames(a) && DistinctNames(b)
    ensures SortKeysDeep(a) == SortKeysDeep(b) <==> Meaning(a, {PROTO}) == Meaning(b, {PROTO})
  {
    CanonicalMeaning(a);
    CanonicalMeaning(b);
    if Meaning(a, {PROTO}) == Meaning(b, {PROTO}) {
      MeaningDecides(a, b);
    }
  }

  lemma {:induction false} ProtoFreeMeaning(v: Json)
    requires ProtoFree(v)
    ensures Meaning(v, {PROTO}) == Meaning(v, {})
  {
    if v.Object? {
      ProtoFreeChildren(v.props);
    }
  }

  lemma {:induction false} ProtoFreeChildren(p: Props)
    requires ProtoFreeProps(p)
    ensures Children(p, {PROTO}) == Children(p, {})
  {
    if p.Prop? {
      ProtoFreeMeaning(p.value);
      ProtoFreeChildren(p.rest);
    }
  }

  /** Without the key `__proto__`, equal canonical forms mean exactly equality up to key order. */
  lemma CanonicalDecides(a: Json, b: Json)
    requires DistinctNames(a) && DistinctNames(b) && ProtoFree(a) && ProtoFree(b)
    ensures SortKeysDeep(a) == SortKeysDeep(b) <==> Meaning(a, {}) == Meaning(b, {})
  {
    CanonicalIff(a, b);
    ProtoFreeMeaning(a);
    ProtoFreeMeaning(b);
  }

  /** Canonicalizing twice changes nothing. */
  lemma CanonicalIdempotent(v: Json)
    requires DistinctNames(v)
    ensures SortKeysDeep(SortKeysDeep(v)) == SortKeysDeep(v)
  {
    CanonicalMeaning(v);
    ProtoFreeMeaning(SortKeysDeep(v));
    MeaningDecides(SortKeysDeep(v), v);
  }

  /** {"__proto__": 1} and {} differ, and have the same canonical form. */
  lemma ProtoKeyIsLost()
    ensures var a, b := Object(Prop(PROTO, Scalar(1), Empty)), Object(Empty);
      && DistinctNames(a) && DistinctNames(b)
      && Meaning(a, {}) != Meaning(b, {}) && SortKeysDeep(a) == SortKeysDeep(b)
  {
    var a, b := Object(Prop(PROTO, Scalar(1), Empty)), Object(Empty);
    assert PROTO in Children(a.props, {}) && PROTO !in Children(b.props, {});
    assert Children(a.props, {PROTO}) == map[] == Children(b.props, {PROTO});
    CanonicalIff(a, b);
  }
}
