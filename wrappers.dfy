/** Option and Result values, and an insertion-ordered dictionary, shared by every module of the model. */
module Wrappers {

  datatype Option<+T> = None | Some(value: T) {
    function GetOr(default: T): T {
      match this
      case Some(v) => v
      case None => default
    }
  }

  datatype Result<+R, +E> = Success(value: R) | Failure(error: E)

  /** A dictionary that remembers insertion order, as a Python dict does: `keys` lists every key once, in the order of
      first insertion; overwriting a key keeps its position. */
  datatype ODict<K, V> = ODict(keys: seq<K>, entries: map<K, V>) {
    ghost predicate Valid() {
      && (forall i, j :: 0 <= i < j < |keys| ==> keys[i] != keys[j])
      && entries.Keys == set i | 0 <= i < |keys| :: keys[i]
    }
  }

  function EmptyDict<K, V>(): (d: ODict<K, V>)
    ensures d.Valid() && d.keys == []
  {
    ODict([], map[])
  }

  /** Assigning a key: a new key goes to the end; an existing key keeps its place and gets the new value. */
  function Put<K, V>(d: ODict<K, V>, k: K, v: V): (r: ODict<K, V>)
    requires d.Valid()
    ensures r.Valid()
    ensures r.entries == d.entries[k := v]
    ensures k in d.entries ==> r.keys == d.keys
    ensures k !in d.entries ==> r.keys == d.keys + [k]
  {
    if k in d.entries then ODict(d.keys, d.entries[k := v])
    else
      var ks := d.keys + [k];
      assert (set i | 0 <= i < |ks| :: ks[i]) == d.entries.Keys + {k} by {
        forall x | x in d.entries.Keys + {k} ensures x in set i | 0 <= i < |ks| :: ks[i] {
          if x == k { assert ks[|ks| - 1] == x; } else { var i :| 0 <= i < |d.keys| && d.keys[i] == x; assert ks[i] == x; }
        }
      }
      ODict(ks, d.entries[k := v])
  }

  /** Every listed key has an entry. */
  lemma KeyIn<K, V>(d: ODict<K, V>, j: nat)
    requires d.Valid() && j < |d.keys|
    ensures d.keys[j] in d.entries
  {
  }

  /** The dict built by putting the first `j` keys of `d`, in order, with their values. */
  function Prefix<K, V>(d: ODict<K, V>, j: nat): (p: ODict<K, V>)
    requires d.Valid() && j <= |d.keys|
    ensures p.Valid()
    decreases j
  {
    if j == 0 then EmptyDict()
    else
      KeyIn(d, j - 1);
      Put(Prefix(d, j - 1), d.keys[j - 1], d.entries[d.keys[j - 1]])
  }

  /** The first `j` keys, in order. */
  lemma {:induction false} PrefixKeys<K, V>(d: ODict<K, V>, j: nat)
    requires d.Valid() && j <= |d.keys|
    ensures Prefix(d, j).keys == d.keys[..j]
    decreases j
  {
    if j > 0 {
      PrefixKeys(d, j - 1);
      var p := Prefix(d, j - 1);
      var k := d.keys[j - 1];
      assert k !in p.keys;
      assert k !in p.entries;
      assert d.keys[..j] == d.keys[..j - 1] + [k];
    }
  }

  /** The first `j` keys have their values in `d`. */
  lemma {:induction false} PrefixValues<K, V>(d: ODict<K, V>, j: nat)
    requires d.Valid() && j <= |d.keys|
    ensures forall k :: k in Prefix(d, j).entries ==> k in d.entries && Prefix(d, j).entries[k] == d.entries[k]
    decreases j
  {
    if j > 0 {
      PrefixValues(d, j - 1);
      KeyIn(d, j - 1);
    }
  }

  /** All the keys give back the dict. */
  lemma PrefixAll<K, V>(d: ODict<K, V>)
    requires d.Valid()
    ensures Prefix(d, |d.keys|) == d
  {
    var p := Prefix(d, |d.keys|);
    PrefixKeys(d, |d.keys|);
    PrefixValues(d, |d.keys|);
    assert d.keys[..|d.keys|] == d.keys;
    assert p.entries.Keys == d.entries.Keys;
    assert p.entries == d.entries;
  }

  /** Position of the first occurrence of `x` in `s` (Python's `list.index`), or None (its ValueError). */
  function IndexOf<T(==)>(s: seq<T>, x: T): (r: Option<nat>)
    ensures r.Some? ==> r.value < |s| && s[r.value] == x && x !in s[..r.value]
    ensures r.None? <==> x !in s
  {
    if s == [] then None
    else if s[0] == x then Some(0)
    else match IndexOf(s[1..], x)
      case None => None
      case Some(i) =>
        assert s[..i + 1] == [s[0]] + s[1..][..i];
        Some(i + 1)
  }

  /** Number of elements of `s` that satisfy `p`. */
  function CountWhere<T>(s: seq<T>, p: T -> bool): (r: nat)
    ensures r <= |s|
  {
    if s == [] then 0 else CountWhere(s[..|s| - 1], p) + (if p(s[|s| - 1]) then 1 else 0)
  }

  /** The elements of `s` that satisfy `p`, in order (a Python list comprehension with a filter). */
  function Filter<T>(s: seq<T>, p: T -> bool): (r: seq<T>)
    ensures |r| <= |s|
    ensures forall x :: x in r ==> x in s && p(x)
  {
    if s == [] then [] else Filter(s[..|s| - 1], p) + (if p(s[|s| - 1]) then [s[|s| - 1]] else [])
  }

  /** The image of each element of `s` under `f`, in order. */
  function MapSeq<T, U>(s: seq<T>, f: T -> U): (r: seq<U>)
    ensures |r| == |s| && forall i :: 0 <= i < |s| ==> r[i] == f(s[i])
  {
    seq(|s|, i requires 0 <= i < |s| => f(s[i]))
  }

  /** The positions of the elements of `s` that satisfy `p`, in increasing order: all of them and no others. */
  function Positions<T>(s: seq<T>, p: T -> bool): (ps: seq<nat>)
    ensures forall i :: 0 <= i < |ps| ==> ps[i] < |s| && p(s[ps[i]])
    ensures forall i, j :: 0 <= i < j < |ps| ==> ps[i] < ps[j]
    ensures forall k :: 0 <= k < |s| && p(s[k]) ==> k in ps
  {
    if s == [] then []
    else
      var n := |s| - 1;
      assert forall k :: 0 <= k < n ==> s[..n][k] == s[k];
      Positions(s[..n], p) + (if p(s[n]) then [n] else [])
  }

  /** Splitting a sequence by a predicate and its negation loses and adds nothing. */
  lemma {:induction false} FilterMultiset<T>(s: seq<T>, p: T -> bool, q: T -> bool)
    requires forall x :: q(x) == !p(x)
    ensures multiset(Filter(s, p)) + multiset(Filter(s, q)) == multiset(s)
  {
    if s != [] {
      var init, last := s[..|s| - 1], s[|s| - 1];
      FilterMultiset(init, p, q);
      assert s == init + [last];
      assert multiset(s) == multiset(init) + multiset{last};
      if p(last) {
        assert Filter(s, p) == Filter(init, p) + [last];
        assert Filter(s, q) == Filter(init, q);
      } else {
        assert Filter(s, p) == Filter(init, p);
        assert Filter(s, q) == Filter(init, q) + [last];
      }
    }
  }
}
