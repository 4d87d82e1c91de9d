/** The few query primitives of the ORM that the modelled code relies on. A table or a
    queryset is a finite map from primary key to row. Querysets without an ordering are
    listed in ascending primary-key order, which is also the order that `.first()` uses
    on an unordered queryset. */
module Queries {
  import opened Base

  /** `m` is the smallest key of `ks`. */
  predicate IsLeast(m: Pk, ks: set<Pk>)
  {
    m in ks && forall k :: k in ks ==> m <= k
  }

  lemma {:induction false} MinExists(ks: set<Pk>)
    requires ks != {}
    ensures exists m :: IsLeast(m, ks)
    decreases |ks|
  {
    var x :| x in ks;
    var rest := ks - {x};
    if rest == {} {
      forall k | k in ks ensures x <= k {
        assert k !in rest;
      }
      assert IsLeast(x, ks);
    } else {
      MinExists(rest);
      var m :| IsLeast(m, rest);
      var least := if x < m then x else m;
      forall k | k in ks ensures least <= k {
        if k != x {
          assert k in rest;
        }
      }
      assert IsLeast(least, ks);
    }
  }

  /** The smallest key of a non-empty set of keys. */
  function MinKey(ks: set<Pk>): (m: Pk)
    requires ks != {}
    ensures IsLeast(m, ks)
  {
    MinExists(ks);
    var m :| IsLeast(m, ks);
    m
  }

  /** The keys in ascending order. */
  function SortedKeys(ks: set<Pk>): (r: seq<Pk>)
    ensures |r| == |ks|
    ensures forall k :: k in r <==> k in ks
    ensures forall i, j :: 0 <= i < j < |r| ==> r[i] < r[j]
    decreases |ks|
  {
    if ks == {} then []
    else
      var m := MinKey(ks);
      [m] + SortedKeys(ks - {m})
  }

  /** The first key of `ks` (a list of keys of `m` in ascending order) whose row satisfies `p`. */
  function FirstIn<T>(m: map<Pk, T>, ks: seq<Pk>, p: T -> bool): (r: Option<Pk>)
    requires forall k :: k in ks ==> k in m
    requires forall i, j :: 0 <= i < j < |ks| ==> ks[i] < ks[j]
    ensures r.Some? ==> r.value in ks && p(m[r.value])
    ensures r.Some? ==> forall k :: k in ks && k < r.value ==> !p(m[k])
    ensures r.None? ==> forall k :: k in ks ==> !p(m[k])
  {
    if ks == [] then None
    else if p(m[ks[0]]) then Some(ks[0])
    else FirstIn(m, ks[1..], p)
  }

  /** `queryset.filter(p).first()`: the key of the row with the smallest primary key
      among the rows satisfying `p`, or None when no row does. */
  function FirstKeyWhere<T>(m: map<Pk, T>, p: T -> bool): (r: Option<Pk>)
    ensures r.Some? ==> r.value in m && p(m[r.value])
    ensures r.Some? ==> forall k :: k in m && k < r.value ==> !p(m[k])
    ensures r.None? <==> forall k :: k in m ==> !p(m[k])
  {
    FirstIn(m, SortedKeys(m.Keys), p)
  }

  /** `queryset.filter(p)`: the rows that satisfy `p`, under their own keys. */
  function Where<T>(m: map<Pk, T>, p: T -> bool): (r: map<Pk, T>)
    ensures forall k :: k in r <==> k in m && p(m[k])
    ensures forall k :: k in r ==> r[k] == m[k]
  {
    map k | k in m && p(m[k]) :: m[k]
  }

  /** The rows of a queryset as a list, in ascending primary-key order. */
  function Rows<T>(m: map<Pk, T>): (r: seq<T>)
    ensures |r| == |m|
    ensures forall i :: 0 <= i < |r| ==> SortedKeys(m.Keys)[i] in m && r[i] == m[SortedKeys(m.Keys)[i]]
  {
    var ks := SortedKeys(m.Keys);
    seq(|ks|, i requires 0 <= i < |ks| => m[ks[i]])
  }
}
