/**
 * The records the server keeps: parsed JSON objects, whose keys JavaScript
 * keeps in insertion order. A record is an ordered list of (key, value)
 * pairs; in a record read from JSON the keys are distinct. Object spread
 * (`{...a, ...b}`) and keyed assignment are modelled on that list.
 */
module Records {
  import opened Results
  import opened Seqs
  import opened Text

  /** A JSON field value: strings, (integral) numbers, booleans and null. */
  datatype Value = Str(s: string) | Num(n: int) | Bool(b: bool) | Null

  /** `String(v)`. */
  function ToText(v: Value): string
  {
    match v
    case Str(s) => s
    case Num(n) => IntToString(n)
    case Bool(b) => if b then "true" else "false"
    case Null => "null"
  }

  /** JavaScript truthiness: the empty string, 0, false and null are falsy. */
  predicate Truthy(v: Value)
  {
    match v
    case Str(s) => s != ""
    case Num(n) => n != 0
    case Bool(b) => b
    case Null => false
  }

  type Field = (string, Value)

  type Record = seq<Field>

  /** `Object.keys(r)`, in the record's own order. */
  function Keys(r: Record): (ks: seq<string>)
    ensures |ks| == |r|
    ensures forall i :: 0 <= i < |r| ==> ks[i] == r[i].0
  {
    if r == [] then [] else [r[0].0] + Keys(r[1..])
  }

  /** `Object.values(r)`, in the record's own order. */
  function Values(r: Record): (vs: seq<Value>)
    ensures |vs| == |r|
    ensures forall i :: 0 <= i < |r| ==> vs[i] == r[i].1
  {
    seq(|r|, i requires 0 <= i < |r| => r[i].1)
  }

  /** No key occurs twice, as in every object JSON.parse produces. */
  predicate WellFormed(r: Record)
  {
    forall i, j :: 0 <= i < j < |r| ==> r[i].0 != r[j].0
  }

  /** `r[k]`: the value stored under `k`, or None for `undefined`. */
  function Lookup(r: Record, k: string): (v: Option<Value>)
    ensures v.Some? <==> k in Keys(r)
    ensures v.Some? ==> (k, v.value) in r
  {
    if r == [] then None
    else if r[0].0 == k then Some(r[0].1)
    else Lookup(r[1..], k)
  }

  /**
   * `r[k] = v` on a copy: an existing key keeps its position and takes the
   * new value, a new key is appended at the end.
   */
  function Put(r: Record, k: string, v: Value): (r': Record)
    ensures Keys(r') == if k in Keys(r) then Keys(r) else Keys(r) + [k]
  {
    if r == [] then [(k, v)]
    else if r[0].0 == k then
      assert ([(k, v)] + r[1..])[1..] == r[1..];
      [(k, v)] + r[1..]
    else
      var tail := Put(r[1..], k, v);
      assert ([r[0]] + tail)[1..] == tail;
      [r[0]] + tail
  }

  /** After the assignment `k` holds `v` and every other key holds what it held. */
  lemma {:induction false} PutLookup(r: Record, k: string, v: Value, j: string)
    ensures Lookup(Put(r, k, v), j) == if j == k then Some(v) else Lookup(r, j)
  {
    if r != [] && r[0].0 != k {
      PutLookup(r[1..], k, v, j);
      assert ([r[0]] + Put(r[1..], k, v))[1..] == Put(r[1..], k, v);
    } else if r != [] {
      assert ([(k, v)] + r[1..])[1..] == r[1..];
    }
  }

  /** In a record whose keys are distinct, keys stay distinct under the assignment. */
  lemma PutWellFormed(r: Record, k: string, v: Value)
    requires WellFormed(r)
    ensures WellFormed(Put(r, k, v))
  {
    var r' := Put(r, k, v);
    assert Keys(r') == if k in Keys(r) then Keys(r) else Keys(r) + [k];
    assert forall i :: 0 <= i < |r'| ==> r'[i].0 == Keys(r')[i];
  }

  /** `{...a, ...b}`: the fields of `b` assigned, in `b`'s order, over a copy of `a`. */
  function Spread(a: Record, b: Record): (r: Record)
    decreases |b|
  {
    if b == [] then a else Spread(Put(a, b[0].0, b[0].1), b[1..])
  }

  /** Spreading into a record whose keys are distinct keeps them distinct. */
  lemma {:induction false} SpreadWellFormed(a: Record, b: Record)
    requires WellFormed(a)
    ensures WellFormed(Spread(a, b))
    decreases |b|
  {
    if b != [] {
      PutWellFormed(a, b[0].0, b[0].1);
      SpreadWellFormed(Put(a, b[0].0, b[0].1), b[1..]);
    }
  }

  /** After a spread, `b`'s keys take `b`'s values and every other key keeps `a`'s. */
  lemma {:induction false} SpreadLookup(a: Record, b: Record, k: string)
    requires WellFormed(b)
    ensures Lookup(Spread(a, b), k) == if k in Keys(b) then Lookup(b, k) else Lookup(a, k)
    decreases |b|
  {
    if b != [] {
      SpreadLookup(Put(a, b[0].0, b[0].1), b[1..], k);
      PutLookup(a, b[0].0, b[0].1, k);
      assert b[0].0 !in Keys(b[1..]);
    }
  }

  /** The test "is not one of `ks`". */
  function NotIn(ks: seq<string>): string -> bool
  {
    k => k !in ks
  }

  /** Assigning a key that is not among `ks` leaves unchanged which of `ks` are new to the record. */
  lemma NewKeysAfterPut(ks: seq<string>, a: Record, k0: string, v: Value)
    requires k0 !in ks
    ensures Filter(ks, NotIn(Keys(Put(a, k0, v)))) == Filter(ks, NotIn(Keys(a)))
  {
    var p, q := NotIn(Keys(Put(a, k0, v))), NotIn(Keys(a));
    forall i | 0 <= i < |ks| ensures p(ks[i]) == q(ks[i]) {
      assert ks[i] != k0;
    }
    FilterCongruent(ks, p, q);
  }

  /**
   * A spread keeps `a`'s keys in place and appends `b`'s new keys at the
   * end, in `b`'s order.
   */
  lemma {:induction false} SpreadKeys(a: Record, b: Record)
    requires WellFormed(b)
    ensures Keys(Spread(a, b)) == Keys(a) + Filter(Keys(b), NotIn(Keys(a)))
    decreases |b|
  {
    if b == [] {
      assert Keys(b) == [];
    } else {
      var k0 := b[0].0;
      var a' := Put(a, k0, b[0].1);
      var tailKeys := Keys(b[1..]);
      var ka := Keys(a);
      var ft := Filter(tailKeys, NotIn(ka));
      SpreadKeys(a', b[1..]);
      assert Spread(a, b) == Spread(a', b[1..]);
      assert k0 !in tailKeys by {
        forall i | 0 <= i < |tailKeys| ensures tailKeys[i] != k0 {
          assert tailKeys[i] == b[i + 1].0;
        }
      }
      NewKeysAfterPut(tailKeys, a, k0, b[0].1);
      assert Filter(Keys(b), NotIn(ka)) == (if k0 !in ka then [k0] else []) + ft by {
        assert Keys(b)[1..] == tailKeys;
      }
      if k0 !in ka {
        assert Keys(a') == ka + [k0];
        AppendAssociative(ka, [k0], ft);
      }
    }
  }

  /** `r.id === id`: the record's `id` field is the string `id`. */
  predicate HasId(r: Record, id: string)
  {
    Lookup(r, "id") == Some(Str(id))
  }

  /** The test `ip => ip.id !== id`. */
  function LacksId(id: string): Record -> bool
  {
    r => !HasId(r, id)
  }

  /** `s.filter(ip => ip.id !== id)`. */
  function WithoutId(s: seq<Record>, id: string): seq<Record>
  {
    Filter(s, LacksId(id))
  }

  /** The test `ip => ip.id === id`. */
  function WithId(id: string): Record -> bool
  {
    r => HasId(r, id)
  }

  /** `s.findIndex(ip => ip.id === id)`, with None for -1. */
  function IndexOfId(s: seq<Record>, id: string): (r: Option<nat>)
    ensures r.Some? ==> r.value < |s| && HasId(s[r.value], id)
    ensures r.Some? ==> forall j :: 0 <= j < r.value ==> !HasId(s[j], id)
    ensures r.None? <==> forall j :: 0 <= j < |s| ==> !HasId(s[j], id)
  {
    FirstIndex(s, WithId(id))
  }
}
