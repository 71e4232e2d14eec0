/**
 * Attribute values and attribute records of column definitions.
 *
 * A column definition is a plain object with open-ended attributes. Its
 * values are compared with lodash's deep equality, which on the values
 * modelled here is Dafny's structural equality on `Value`. An object keeps
 * its keys in insertion order (the order `Object.keys` reports for keys that
 * are not integer-like), so an attribute record is an ordered key list beside
 * the key/value map.
 */
module Values {

  datatype Option<T> = None | Some(value: T)

  /** An attribute value. `VObject` is unordered: deep equality ignores key order. */
  datatype Value =
    | VStr(s: string)
    | VInt(i: int)
    | VBool(b: bool)
    | VNull
    | VList(items: seq<Value>)
    | VObject(fields: map<string, Value>)

  /** The own attributes of one object: its keys in insertion order, and their values. */
  datatype Attrs = Attrs(order: seq<string>, values: map<string, Value>)

  predicate Distinct(s: seq<string>) {
    forall i, j :: 0 <= i < j < |s| ==> s[i] != s[j]
  }

  lemma DistinctTail(s: seq<string>)
    requires Distinct(s) && s != []
    ensures Distinct(s[1..]) && s[0] !in s[1..]
  {
  }

  lemma DistinctCons(x: string, t: seq<string>)
    requires Distinct(t) && x !in t
    ensures Distinct([x] + t)
  {
    var s := [x] + t;
    forall i, j | 0 <= i < j < |s| ensures s[i] != s[j] {
      if i == 0 { assert s[j] == t[j - 1]; } else { assert s[i] == t[i - 1] && s[j] == t[j - 1]; }
    }
  }

  lemma DistinctSnoc(t: seq<string>, x: string)
    requires Distinct(t) && x !in t
    ensures Distinct(t + [x])
  {
    var s := t + [x];
    forall i, j | 0 <= i < j < |s| ensures s[i] != s[j] {
      if j == |t| { assert s[i] == t[i]; } else { assert s[i] == t[i] && s[j] == t[j]; }
    }
  }

  /** What every object satisfies: each key is listed once, and exactly the keys that hold a value are listed. */
  ghost predicate WellFormed(a: Attrs) {
    && Distinct(a.order)
    && forall k :: k in a.values <==> k in a.order
  }

  /** Property access `obj[key]`: `None` is `undefined`. */
  function Get(a: Attrs, key: string): Option<Value> {
    if key in a.values then Some(a.values[key]) else None
  }

  /** The nullish-coalescing operator `a ?? b`. */
  function Coalesce(a: Option<Value>, b: Option<Value>): Option<Value> {
    if a == None || a == Some(VNull) then b else a
  }

  /** The keys of `s` other than `x`, in their order (`keys.filter(k => k !== x)`). */
  function Without(s: seq<string>, x: string): seq<string> {
    if s == [] then [] else (if s[0] == x then [] else [s[0]]) + Without(s[1..], x)
  }

  /** Filtering keeps exactly the other keys, and keeps them distinct. */
  lemma {:induction false} WithoutSpec(s: seq<string>, x: string)
    ensures forall y :: y in Without(s, x) <==> y in s && y != x
    ensures Distinct(s) ==> Distinct(Without(s, x))
  {
    if s != [] {
      WithoutSpec(s[1..], x);
      var rest := Without(s[1..], x);
      assert forall y :: y in s <==> y == s[0] || y in s[1..] by {
        assert s == [s[0]] + s[1..];
      }
      if Distinct(s) {
        DistinctTail(s);
        if s[0] != x { DistinctCons(s[0], rest); }
      }
    }
  }

  /** Filtering keeps the order: it filters each part of a concatenation separately. */
  lemma {:induction false} WithoutAppend(a: seq<string>, b: seq<string>, x: string)
    ensures Without(a + b, x) == Without(a, x) + Without(b, x)
    decreases |a|
  {
    if a == [] {
      assert a + b == b;
    } else {
      assert (a + b)[0] == a[0] && (a + b)[1..] == a[1..] + b;
      WithoutAppend(a[1..], b, x);
    }
  }

  /** On a single key, filtering keeps it exactly when it is not the one removed. */
  lemma WithoutSingle(y: string, x: string)
    ensures Without([y], x) == if y == x then [] else [y]
  {
    assert [y][1..] == [];
  }

  /**
   * Adds the elements of `s`, in order, to the insertion-ordered set `seen`,
   * skipping those already present: what `new Set([...seen, ...s])` holds.
   */
  function DedupFrom(seen: seq<string>, s: seq<string>): seq<string>
    decreases |s|
  {
    if s == [] then seen
    else DedupFrom(if s[0] in seen then seen else seen + [s[0]], s[1..])
  }

  /** The set keeps what it had, in place, gains exactly the elements of `s`, and lists none twice. */
  lemma {:induction false} DedupFromSpec(seen: seq<string>, s: seq<string>)
    ensures |seen| <= |DedupFrom(seen, s)| && DedupFrom(seen, s)[..|seen|] == seen
    ensures forall y :: y in DedupFrom(seen, s) <==> y in seen || y in s
    ensures Distinct(seen) ==> Distinct(DedupFrom(seen, s))
    decreases |s|
  {
    if s != [] {
      var seen' := if s[0] in seen then seen else seen + [s[0]];
      DedupFromSpec(seen', s[1..]);
      var r := DedupFrom(seen', s[1..]);
      assert r[..|seen|] == r[..|seen'|][..|seen|];
      assert forall y :: y in s <==> y == s[0] || y in s[1..] by {
        assert s == [s[0]] + s[1..];
      }
      if Distinct(seen) && s[0] !in seen { DistinctSnoc(seen, s[0]); }
    }
  }

  lemma {:induction false} DedupFromConcat(seen: seq<string>, a: seq<string>, b: seq<string>)
    ensures DedupFrom(seen, a + b) == DedupFrom(DedupFrom(seen, a), b)
    decreases |a|
  {
    if a == [] {
      assert a + b == b;
    } else {
      assert (a + b)[0] == a[0] && (a + b)[1..] == a[1..] + b;
      var seen' := if a[0] in seen then seen else seen + [a[0]];
      DedupFromConcat(seen', a[1..], b);
    }
  }

  /** On keys that are already distinct and new, adding them changes nothing but appends them. */
  lemma {:induction false} DedupFromFresh(seen: seq<string>, s: seq<string>)
    requires Distinct(s)
    requires forall y :: y in s ==> y !in seen
    ensures DedupFrom(seen, s) == seen + s
    decreases |s|
  {
    if s != [] {
      assert s[0] in s;
      DistinctTail(s);
      var seen' := seen + [s[0]];
      assert DedupFrom(seen, s) == DedupFrom(seen', s[1..]);
      forall y | y in s[1..] ensures y !in seen' {
        assert y in s;
      }
      DedupFromFresh(seen', s[1..]);
      assert seen' + s[1..] == seen + s;
    }
  }

  /** The key set `new Set([...Object.keys(o), ...Object.keys(e)])`, in its iteration order. */
  function UnionKeys(o: Attrs, e: Attrs): seq<string> {
    DedupFrom([], o.order + e.order)
  }

  /** With origin's keys distinct, the union is edited's new keys added after them. */
  lemma UnionKeysAfter(o: Attrs, e: Attrs)
    requires Distinct(o.order)
    ensures UnionKeys(o, e) == DedupFrom(o.order, e.order)
  {
    DedupFromConcat([], o.order, e.order);
    DedupFromFresh([], o.order);
    assert [] + o.order == o.order;
  }

  /** The union lists every key of either record once, origin's keys first and in origin's order. */
  lemma UnionKeysSpec(o: Attrs, e: Attrs)
    requires WellFormed(o) && WellFormed(e)
    ensures Distinct(UnionKeys(o, e))
    ensures forall k :: k in UnionKeys(o, e) <==> k in o.values || k in e.values
    ensures |o.order| <= |UnionKeys(o, e)| && UnionKeys(o, e)[..|o.order|] == o.order
  {
    DedupFromSpec([], o.order + e.order);
    DedupFromConcat([], o.order, e.order);
    DedupFromFresh([], o.order);
    assert [] + o.order == o.order;
    DedupFromSpec(o.order, e.order);
  }

  lemma {:induction false} WithoutAbsent(s: seq<string>, x: string)
    requires x !in s
    ensures Without(s, x) == s
  {
    if s != [] {
      WithoutAbsent(s[1..], x);
      assert [s[0]] + s[1..] == s;
    }
  }

  /** Omitting a key the record does not have copies it unchanged. */
  lemma OmitAbsent(a: Attrs, key: string)
    requires key !in a.order && key !in a.values
    ensures Omit(a, key) == a
  {
    WithoutAbsent(a.order, key);
  }

  /** `_.omit(a, key)`: a copy of the record without `key`. */
  function Omit(a: Attrs, key: string): Attrs {
    Attrs(Without(a.order, key), a.values - {key})
  }

  /** The copy lacks `key`, agrees with the original on every other key, and is still a proper object. */
  lemma OmitSpec(a: Attrs, key: string)
    ensures Get(Omit(a, key), key) == None
    ensures forall k :: k != key ==> Get(Omit(a, key), k) == Get(a, k)
    ensures WellFormed(a) ==> WellFormed(Omit(a, key))
  {
    WithoutSpec(a.order, key);
  }
}
