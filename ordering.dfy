/** The fixed list orders of the store's `ORDER BY` clauses. Every listing
    sorts on a `Key`: rooms on `(sort_order, price_per_night)`, the other
    tables on `(sort_order, name)`; the unused component is held constant. */
module Ordering {
  import Text

  datatype Key = Key(order: int, price: int, name: string)

  /** Ascending lexicographic order on keys. */
  predicate KeyLe(a: Key, b: Key) {
    a.order < b.order
    || (a.order == b.order && (a.price < b.price
        || (a.price == b.price && Text.StringLe(a.name, b.name))))
  }

  lemma KeyLeTotal(a: Key, b: Key)
    ensures KeyLe(a, b) || KeyLe(b, a)
  {
    Text.StringLeTotal(a.name, b.name);
  }

  lemma KeyLeTransitive(a: Key, b: Key, c: Key)
    requires KeyLe(a, b) && KeyLe(b, c)
    ensures KeyLe(a, c)
  {
    if a.order == b.order == c.order && a.price == b.price == c.price {
      Text.StringLeTransitive(a.name, b.name, c.name);
    }
  }

  /** `s` is in ascending key order. */
  predicate SortedBy<R>(s: seq<R>, key: R -> Key) {
    forall i, j :: 0 <= i < j < |s| ==> KeyLe(key(s[i]), key(s[j]))
  }

  /** A sorted sequence stays sorted under a head no greater than any of its elements. */
  lemma SortedCons<R>(h: R, t: seq<R>, key: R -> Key)
    requires SortedBy(t, key)
    requires forall j :: 0 <= j < |t| ==> KeyLe(key(h), key(t[j]))
    ensures SortedBy([h] + t, key)
  {
    var r := [h] + t;
    forall i, j | 0 <= i < j < |r| ensures KeyLe(key(r[i]), key(r[j])) {
      assert r[j] == t[j - 1];
      if i > 0 { assert r[i] == t[i - 1]; }
    }
  }

  /** `x` placed before the first element of sorted `s` whose key is above it. */
  function Insert<R>(x: R, s: seq<R>, key: R -> Key): (r: seq<R>)
    requires SortedBy(s, key)
    ensures multiset(r) == multiset(s) + multiset{x}
    ensures forall y :: y in r ==> y == x || y in s
    ensures SortedBy(r, key)
  {
    if s == [] then [x]
    else if KeyLe(key(x), key(s[0])) then
      assert forall j :: 0 <= j < |s| ==> KeyLe(key(x), key(s[j])) by {
        forall j | 0 <= j < |s| ensures KeyLe(key(x), key(s[j])) {
          if j > 0 { KeyLeTransitive(key(x), key(s[0]), key(s[j])); }
        }
      }
      SortedCons(x, s, key);
      [x] + s
    else
      KeyLeTotal(key(x), key(s[0]));
      var rest := Insert(x, s[1..], key);
      assert s == [s[0]] + s[1..];
      assert forall j :: 0 <= j < |rest| ==> KeyLe(key(s[0]), key(rest[j])) by {
        forall j | 0 <= j < |rest| ensures KeyLe(key(s[0]), key(rest[j])) {
          assert rest[j] in rest;
          if rest[j] != x {
            var k :| 0 <= k < |s[1..]| && s[1..][k] == rest[j];
            assert s[k + 1] == rest[j];
          }
        }
      }
      SortedCons(s[0], rest, key);
      [s[0]] + rest
  }

  /** Insertion sort on `key`: the rows of `s`, each as often as in `s`, in ascending key order. */
  function SortBy<R>(s: seq<R>, key: R -> Key): (r: seq<R>)
    ensures multiset(r) == multiset(s)
    ensures SortedBy(r, key)
  {
    if s == [] then []
    else
      assert s == [s[0]] + s[1..];
      Insert(s[0], SortBy(s[1..], key), key)
  }
}
