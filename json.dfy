/** An abstract JSON tree, and the mechanism by which serde's derived `Serialize` turns a
    struct into a JSON object: the struct's fields in declaration order, each written under its
    (possibly renamed) key unless its `skip_serializing_if` predicate holds. */
module Json {
  import opened Primitives

  /** A JSON value. Integers and floats are kept apart (`Int`, `Decimal`) because serde_json
      writes a `u32` 1 as `1` and an `f64` 1.0 as `1.0`. An object is an ordered list of
      members. */
  datatype Json =
    | Null
    | Bool(b: bool)
    | Int(i: int)
    | Decimal(x: F64)
    | String(s: string)
    | Array(items: seq<Json>)
    | Object(members: seq<(string, Json)>)

  /** The keys of an object's members, in order. */
  function Keys(m: seq<(string, Json)>): seq<string> {
    seq(|m|, i requires 0 <= i < |m| => m[i].0)
  }

  predicate Distinct<T(==)>(s: seq<T>) {
    forall i, j :: 0 <= i < j < |s| ==> s[i] != s[j]
  }

  /** `xs` can be obtained from `ys` by deleting elements: same order, nothing new. */
  predicate SubsequenceOf<T(==)>(xs: seq<T>, ys: seq<T>) {
    xs == [] ||
    (ys != [] &&
     ((xs[0] == ys[0] && SubsequenceOf(xs[1..], ys[1..])) || SubsequenceOf(xs, ys[1..])))
  }

  /** Every object in the tree has pairwise distinct keys. */
  predicate Valid(j: Json) {
    match j
    case Array(items) => forall i :: 0 <= i < |items| ==> Valid(items[i])
    case Object(m) => Distinct(Keys(m)) && forall i :: 0 <= i < |m| ==> Valid(m[i].1)
    case _ => true
  }

  /** `key` is among the keys of `m` exactly when `present`, and is then bound to `value`. */
  predicate Emitted(m: seq<(string, Json)>, key: string, present: bool, value: Json) {
    (key in Keys(m) <==> present) && (present ==> (key, value) in m)
  }

  /** One field of a serialisable struct: its JSON key, whether its skip predicate holds for the
      current value (always false for a field without `skip_serializing_if`), and its encoding. */
  datatype Field = Field(key: string, omit: bool, value: Json)

  /** The declared keys of a field table, in declaration order. */
  function FieldKeys(fs: seq<Field>): seq<string> {
    seq(|fs|, i requires 0 <= i < |fs| => fs[i].key)
  }

  /** The members serde writes for a struct whose field table is `fs`. */
  function Emit(fs: seq<Field>): seq<(string, Json)> {
    if fs == [] then []
    else (if fs[0].omit then [] else [(fs[0].key, fs[0].value)]) + Emit(fs[1..])
  }

  /** The encoding of a `Vec` of values, element by element. */
  function MapJson<T>(xs: seq<T>, f: T -> Json): (r: seq<Json>)
    ensures |r| == |xs|
  {
    seq(|xs|, i requires 0 <= i < |xs| => f(xs[i]))
  }

  /** A list of values each of which is valid is written as a valid JSON array. */
  lemma MapJsonValid<T>(xs: seq<T>, f: T -> Json)
    requires forall x :: x in xs ==> Valid(f(x))
    ensures Valid(Array(MapJson(xs, f)))
  {
    assert forall i :: 0 <= i < |xs| ==> xs[i] in xs;
  }

  lemma KeysAppend(a: seq<(string, Json)>, b: seq<(string, Json)>)
    ensures Keys(a + b) == Keys(a) + Keys(b)
  {
    assert forall i :: 0 <= i < |a + b| ==> Keys(a + b)[i] == (Keys(a) + Keys(b))[i];
  }

  lemma {:induction false} SubsequenceMembers<T>(xs: seq<T>, ys: seq<T>)
    requires SubsequenceOf(xs, ys)
    ensures forall x :: x in xs ==> x in ys
    decreases |ys|
  {
    if xs != [] {
      if xs[0] == ys[0] && SubsequenceOf(xs[1..], ys[1..]) {
        SubsequenceMembers(xs[1..], ys[1..]);
        assert xs == [xs[0]] + xs[1..];
        assert ys == [ys[0]] + ys[1..];
      } else {
        SubsequenceMembers(xs, ys[1..]);
        assert ys == [ys[0]] + ys[1..];
      }
    }
  }

  /** Deleting elements from a list without repetitions leaves a list without repetitions. */
  lemma {:induction false} SubsequenceDistinct<T>(xs: seq<T>, ys: seq<T>)
    requires SubsequenceOf(xs, ys) && Distinct(ys)
    ensures Distinct(xs)
    decreases |ys|
  {
    if xs != [] {
      assert Distinct(ys[1..]);
      if xs[0] == ys[0] && SubsequenceOf(xs[1..], ys[1..]) {
        SubsequenceDistinct(xs[1..], ys[1..]);
        SubsequenceMembers(xs[1..], ys[1..]);
        assert ys[0] !in ys[1..];
        assert xs[0] !in xs[1..];
        forall i, j | 0 <= i < j < |xs| ensures xs[i] != xs[j] {
          if i == 0 {
            assert xs[j] == xs[1..][j - 1];
          } else {
            assert xs[i] == xs[1..][i - 1] && xs[j] == xs[1..][j - 1];
          }
        }
      } else {
        SubsequenceDistinct(xs, ys[1..]);
      }
    }
  }

  lemma FieldKeysTail(fs: seq<Field>)
    requires fs != []
    ensures FieldKeys(fs) == [fs[0].key] + FieldKeys(fs[1..])
    ensures Distinct(FieldKeys(fs)) ==>
              Distinct(FieldKeys(fs[1..])) && fs[0].key !in FieldKeys(fs[1..])
  {
    var ks, tail := FieldKeys(fs), FieldKeys(fs[1..]);
    assert forall i :: 0 <= i < |tail| ==> tail[i] == ks[i + 1];
    assert ks == [ks[0]] + tail;
    if Distinct(ks) {
      forall i, j | 0 <= i < j < |tail| ensures tail[i] != tail[j] {
        assert tail[i] == ks[i + 1] && tail[j] == ks[j + 1];
      }
      forall i | 0 <= i < |tail| ensures tail[i] != fs[0].key {
        assert tail[i] == ks[i + 1] && ks[0] == fs[0].key;
      }
    }
  }

  /** serde writes the members of a struct in the order its fields are declared, and only the
      declared keys. */
  lemma {:induction false} EmitInOrder(fs: seq<Field>)
    ensures SubsequenceOf(Keys(Emit(fs)), FieldKeys(fs))
  {
    if fs != [] {
      var head: seq<(string, Json)> := if fs[0].omit then [] else [(fs[0].key, fs[0].value)];
      var xs, ys := Keys(Emit(fs)), FieldKeys(fs);
      EmitInOrder(fs[1..]);
      KeysAppend(head, Emit(fs[1..]));
      FieldKeysTail(fs);
      assert ys[1..] == FieldKeys(fs[1..]);
      if fs[0].omit {
        assert xs == Keys(Emit(fs[1..]));
      } else {
        assert xs == [fs[0].key] + Keys(Emit(fs[1..]));
        assert xs[1..] == Keys(Emit(fs[1..]));
      }
    }
  }

  /** Every key serde writes for a struct is one of its declared keys. */
  lemma EmitKeysDeclared(fs: seq<Field>)
    ensures forall k :: k in Keys(Emit(fs)) ==> k in FieldKeys(fs)
  {
    EmitInOrder(fs);
    SubsequenceMembers(Keys(Emit(fs)), FieldKeys(fs));
  }

  /** For a struct whose keys are distinct, field `i` is written exactly when its skip predicate
      fails, and then under its key with its encoding. */
  lemma {:induction false} EmitEntry(fs: seq<Field>, i: nat)
    requires i < |fs| && Distinct(FieldKeys(fs))
    ensures Emitted(Emit(fs), fs[i].key, !fs[i].omit, fs[i].value)
  {
    var head: seq<(string, Json)> := if fs[0].omit then [] else [(fs[0].key, fs[0].value)];
    var rest := Emit(fs[1..]);
    assert Emit(fs) == head + rest;
    KeysAppend(head, rest);
    FieldKeysTail(fs);
    if i == 0 {
      EmitKeysDeclared(fs[1..]);
      assert fs[0].key !in Keys(rest);
      if !fs[0].omit {
        assert Keys(head) == [fs[0].key];
      } else {
        assert Keys(head) == [];
      }
    } else {
      EmitEntry(fs[1..], i - 1);
      assert fs[i] == fs[1..][i - 1];
      assert FieldKeys(fs)[i] == fs[i].key;
    }
  }

  /** A struct all of whose fields are at their skip value is written as `{}`. */
  lemma {:induction false} EmitAllOmitted(fs: seq<Field>)
    requires forall i :: 0 <= i < |fs| ==> fs[i].omit
    ensures Emit(fs) == []
  {
    if fs != [] {
      assert fs[0].omit;
      assert forall i :: 0 <= i < |fs[1..]| ==> fs[1..][i] == fs[i + 1];
      EmitAllOmitted(fs[1..]);
    }
  }

  /** A struct all of whose fields but field `i` are at their skip value is written with that
      one member. */
  lemma {:induction false} EmitSingle(fs: seq<Field>, i: nat)
    requires i < |fs| && !fs[i].omit
    requires forall j :: 0 <= j < |fs| && j != i ==> fs[j].omit
    ensures Emit(fs) == [(fs[i].key, fs[i].value)]
  {
    assert forall j :: 0 <= j < |fs[1..]| ==> fs[1..][j] == fs[j + 1];
    if i == 0 {
      EmitAllOmitted(fs[1..]);
    } else {
      assert fs[0].omit;
      EmitSingle(fs[1..], i - 1);
    }
  }

  /** A struct with distinct keys whose written fields encode as valid JSON is written as a
      valid JSON object. */
  lemma {:induction false} EmitValid(fs: seq<Field>)
    requires Distinct(FieldKeys(fs))
    requires forall i :: 0 <= i < |fs| && !fs[i].omit ==> Valid(fs[i].value)
    ensures Valid(Object(Emit(fs)))
  {
    EmitInOrder(fs);
    SubsequenceDistinct(Keys(Emit(fs)), FieldKeys(fs));
    EmitValuesValid(fs);
  }

  lemma {:induction false} EmitValuesValid(fs: seq<Field>)
    requires forall i :: 0 <= i < |fs| && !fs[i].omit ==> Valid(fs[i].value)
    ensures forall i :: 0 <= i < |Emit(fs)| ==> Valid(Emit(fs)[i].1)
  {
    if fs != [] {
      var head: seq<(string, Json)> := if fs[0].omit then [] else [(fs[0].key, fs[0].value)];
      assert forall j :: 0 <= j < |fs[1..]| ==> fs[1..][j] == fs[j + 1];
      EmitValuesValid(fs[1..]);
      assert Emit(fs) == head + Emit(fs[1..]);
    }
  }
}
