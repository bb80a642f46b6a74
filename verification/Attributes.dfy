/**
 Attribute lists: the meaning of the "*3*f*1c" strings that ops carry, after every
 number has been looked up in the pool.
 */
module Attributes {
  import opened Ordering

  // The pool files a pair under the text "key,value", so keys hold no comma.
  type Key = k: string | ',' !in k witness ""

  datatype Pair = Pair(key: Key, value: string)

  type AttribMap = map<Key, string>

  function PairText(p: Pair): string {
    p.key + "," + p.value
  }

  predicate Before(p: Pair, q: Pair) {
    p.key != q.key && StrLe(PairText(p), PairText(q))
  }

  // Sorted the way `atts.sort()` sorts, one pair a key.
  predicate Sorted(a: seq<Pair>) {
    forall i, j :: 0 <= i < j < |a| ==> Before(a[i], a[j])
  }

  type Attribs = a: seq<Pair> | Sorted(a) witness []

  // Pairs stand in the order of their texts, character by character.
  lemma SortedIs(a: seq<Pair>)
    ensures Sorted(a) <==> forall i, j :: 0 <= i < j < |a| ==>
              a[i].key != a[j].key && Earlier(a[i].key + "," + a[i].value, a[j].key + "," + a[j].value)
  {
    forall i, j | 0 <= i < j < |a|
      ensures Before(a[i], a[j]) <==>
                a[i].key != a[j].key && Earlier(a[i].key + "," + a[i].value, a[j].key + "," + a[j].value)
    {
      StrLeIs(PairText(a[i]), PairText(a[j]));
      if PairText(a[i]) == PairText(a[j]) { PairTextInjective(a[i], a[j]); }
    }
  }

  ghost predicate DistinctKeys(a: seq<Pair>) {
    forall i, j :: 0 <= i < j < |a| ==> a[i].key != a[j].key
  }

  function MapOf(a: seq<Pair>): AttribMap
  {
    if a == [] then map[] else MapOf(a[..|a| - 1])[a[|a| - 1].key := a[|a| - 1].value]
  }

  ghost predicate Binds(m: AttribMap, p: Pair) {
    p.key in m && m[p.key] == p.value
  }

  lemma InPrefix(a: seq<Pair>, p: Pair)
    requires a != [] && DistinctKeys(a)
    ensures p in a <==> p == a[|a| - 1] || p in a[..|a| - 1]
    ensures p in a[..|a| - 1] ==> p.key != a[|a| - 1].key
  {
    assert a == a[..|a| - 1] + [a[|a| - 1]];
    if p in a[..|a| - 1] {
      var i :| 0 <= i < |a| - 1 && a[..|a| - 1][i] == p;
      assert a[i].key != a[|a| - 1].key;
    }
  }

  lemma {:induction false} MapOfHas1(a: seq<Pair>, p: Pair)
    requires DistinctKeys(a)
    ensures p in a <==> Binds(MapOf(a), p)
  {
    if a != [] {
      MapOfHas1(a[..|a| - 1], p);
      InPrefix(a, p);
    }
  }

  lemma MapOfHas(a: seq<Pair>)
    requires DistinctKeys(a)
    ensures forall p :: p in a <==> Binds(MapOf(a), p)
  {
    forall p ensures p in a <==> Binds(MapOf(a), p) {
      MapOfHas1(a, p);
    }
  }

  lemma CommaEndsKey(p: Pair)
    ensures PairText(p)[|p.key|] == ','
    ensures forall i :: 0 <= i < |p.key| ==> PairText(p)[i] != ','
  {
    forall i | 0 <= i < |p.key| ensures PairText(p)[i] != ',' {
      assert PairText(p)[i] == p.key[i] && p.key[i] in p.key;
    }
  }

  lemma PairTextInjective(p: Pair, q: Pair)
    requires PairText(p) == PairText(q)
    ensures p == q
  {
    CommaEndsKey(p);
    CommaEndsKey(q);
    assert |p.key| == |q.key|;
    assert p.key == PairText(p)[..|p.key|] == PairText(q)[..|p.key|] == q.key;
    assert p.value == PairText(p)[|p.key| + 1..] == PairText(q)[|p.key| + 1..] == q.value;
  }

  // A sorted list is determined by the map it stands for.
  lemma {:induction false} SortedUnique(a: Attribs, b: Attribs)
    requires forall p :: p in a <==> p in b
    ensures a == b
  {
    assert (a != [] ==> a[0] in b) && (b != [] ==> b[0] in a);
    if a != [] {
      if a[0] != b[0] {
        var i :| 0 <= i < |a| && a[i] == b[0];
        var j :| 0 <= j < |b| && b[j] == a[0];
        assert Before(a[0], a[i]) && Before(b[0], b[j]);
        StrLeAntisymmetric(PairText(a[0]), PairText(b[0]));
        PairTextInjective(a[0], b[0]);
      }
      var a', b' := a[1..], b[1..];
      forall p ensures p in a' <==> p in b' {
        if p in a' {
          var i :| 0 <= i < |a'| && a'[i] == p;
          assert Before(a[0], a[i + 1]);
          assert p in b;
        }
        if p in b' {
          var i :| 0 <= i < |b'| && b'[i] == p;
          assert Before(b[0], b[i + 1]);
          assert p in a;
        }
      }
      SortedUnique(a', b');
      assert a == [a[0]] + a' && b == [b[0]] + b';
    }
  }

  lemma SameMapSameList(a: Attribs, b: Attribs)
    requires MapOf(a) == MapOf(b)
    ensures a == b
  {
    MapOfHas(a);
    MapOfHas(b);
    SortedUnique(a, b);
  }

  // ---------- sorting

  function InsertSorted(p: Pair, a: seq<Pair>): seq<Pair>
  {
    if a == [] then [p]
    else if StrLe(PairText(p), PairText(a[0])) then [p] + a
    else [a[0]] + InsertSorted(p, a[1..])
  }

  lemma {:induction false} InsertSortedCorrect(p: Pair, a: Attribs)
    requires forall q :: q in a ==> q.key != p.key
    ensures Sorted(InsertSorted(p, a))
    ensures forall q :: q in InsertSorted(p, a) <==> q == p || q in a
  {
    var r := InsertSorted(p, a);
    if a != [] {
      if StrLe(PairText(p), PairText(a[0])) {
        forall i, j | 0 <= i < j < |r| ensures Before(r[i], r[j]) {
          if i == 0 {
            if j > 1 {
              assert Before(a[0], a[j - 1]);
              StrLeTransitive(PairText(p), PairText(a[0]), PairText(a[j - 1]));
            }
          } else {
            assert Before(a[i - 1], a[j - 1]);
          }
        }
      } else {
        InsertSortedCorrect(p, a[1..]);
        StrLeTotal(PairText(p), PairText(a[0]));
        var t := InsertSorted(p, a[1..]);
        forall i, j | 0 <= i < j < |r| ensures Before(r[i], r[j]) {
          if i == 0 {
            assert r[j] == t[j - 1] && t[j - 1] in t;
            if r[j] in a[1..] {
              var m :| 0 <= m < |a[1..]| && a[1..][m] == r[j];
              assert Before(a[0], a[m + 1]);
            }
          } else {
            assert Before(t[i - 1], t[j - 1]);
          }
        }
        assert a == [a[0]] + a[1..];
      }
    }
  }

  // `atts.sort()`
  function Sort(a: seq<Pair>): seq<Pair> {
    if a == [] then [] else InsertSorted(a[0], Sort(a[1..]))
  }

  lemma {:induction false} SortCorrect(a: seq<Pair>)
    requires DistinctKeys(a)
    ensures Sorted(Sort(a)) && (forall q :: q in Sort(a) <==> q in a) && MapOf(Sort(a)) == MapOf(a)
  {
    if a != [] {
      SortCorrect(a[1..]);
      assert a == [a[0]] + a[1..];
      forall q | q in a[1..] ensures q.key != a[0].key {
        var i :| 0 <= i < |a[1..]| && a[1..][i] == q;
        assert a[i + 1].key != a[0].key;
      }
      InsertSortedCorrect(a[0], Sort(a[1..]));
    }
    MapOfHas(a);
    MapOfHas(Sort(a));
    MapsAgree(MapOf(a), MapOf(Sort(a)));
  }

  lemma MapsAgree(m: AttribMap, n: AttribMap)
    requires forall p: Pair :: Binds(m, p) <==> Binds(n, p)
    ensures m == n
  {
    forall k: Key ensures k in m ==> k in n && m[k] == n[k] {
      if k in m {
        var p := Pair(k, m[k]);
        assert Binds(n, p) && Binds(m, p);
      }
    }
    forall k: Key ensures k in n ==> k in m {
      if k in n {
        var p := Pair(k, n[k]);
        assert Binds(m, p) && Binds(n, p);
      }
    }
  }

  // ---------- every map has exactly one sorted list

  lemma {:induction false} ListingExists(m: AttribMap) returns (a: Attribs)
    ensures MapOf(a) == m
    decreases |m|
  {
    if m == map[] {
      a := [];
    } else {
      var k :| k in m;
      var b := ListingExists(m - {k});
      MapOfHas(b);
      forall q | q in b ensures q.key != k { assert q.key in m - {k}; }
      InsertSortedCorrect(Pair(k, m[k]), b);
      a := InsertSorted(Pair(k, m[k]), b);
      MapOfHas(a);
      forall p: Pair
        ensures Binds(m, p) <==> Binds(MapOf(a), p)
      {
        assert p in a <==> p == Pair(k, m[k]) || p in b;
        assert p in b <==> Binds(m - {k}, p);
      }
      MapsAgree(m, MapOf(a));
    }
  }

  ghost function Listing(m: AttribMap): (a: Attribs)
    ensures MapOf(a) == m
  {
    assert exists a: Attribs :: MapOf(a) == m by { var b := ListingExists(m); }
    var a: Attribs :| MapOf(a) == m;
    a
  }

  lemma ListingOfMap(a: Attribs)
    ensures Listing(MapOf(a)) == a
  {
    SameMapSameList(Listing(MapOf(a)), a);
  }

  // ---------- composing: `a2` applied on top of `a1`

  // With `mutation`, `a1` is itself a mutation and an empty value in `a2` is kept as an
  // instruction to clear the key; without it, `a1` is the style of a character and an
  // empty value in `a2` removes the key.
  ghost function ComposeMaps(m1: AttribMap, m2: AttribMap, mutation: bool): AttribMap {
    if mutation then m1 + m2
    else map k | k in (m1 + m2).Keys && !(k in m2 && m2[k] == "") :: (m1 + m2)[k]
  }

  ghost function ComposeAttributes(a1: Attribs, a2: Attribs, mutation: bool): Attribs {
    Listing(ComposeMaps(MapOf(a1), MapOf(a2), mutation))
  }

  // What composing does to a single key.
  datatype Binding = Unbound | Bound(value: string)

  ghost function At(m: AttribMap, k: Key): Binding {
    if k in m then Bound(m[k]) else Unbound
  }

  ghost function Over(x: Binding, a: Binding, mutation: bool): Binding {
    if a.Unbound? then x else if a.value == "" && !mutation then Unbound else a
  }

  lemma ComposeAt(x: AttribMap, a: AttribMap, mutation: bool, k: Key)
    ensures At(ComposeMaps(x, a, mutation), k) == Over(At(x, k), At(a, k), mutation)
  {}

  // Exactly the pairs of the second change, and those of the first whose keys it does not
  // speak of; what it clears is kept only in a mutation.
  lemma ComposedHas(a1: Attribs, a2: Attribs, mutation: bool, p: Pair)
    ensures p in ComposeAttributes(a1, a2, mutation) <==>
              || (p in a2 && (mutation || p.value != ""))
              || (p in a1 && forall q :: q in a2 ==> q.key != p.key)
  {
    hide MapOf, ComposeMaps;
    MapOfHas(a1);
    MapOfHas(a2);
    MapOfHas(ComposeAttributes(a1, a2, mutation));
    ComposeAt(MapOf(a1), MapOf(a2), mutation, p.key);
    SilentOn(a2, p.key);
  }

  lemma SilentOn(a: Attribs, k: Key)
    ensures (forall q :: q in a ==> q.key != k) <==> k !in MapOf(a)
  {
    hide MapOf;
    MapOfHas(a);
    if k in MapOf(a) { assert Binds(MapOf(a), Pair(k, MapOf(a)[k])); }
  }

  lemma SameEverywhere(m: AttribMap, n: AttribMap)
    requires forall k :: At(m, k) == At(n, k)
    ensures m == n
  {
    assert forall k :: k in m ==> At(m, k) == At(n, k);
    assert forall k :: k in n ==> At(m, k) == At(n, k);
  }

  lemma MapsAssociative(x: AttribMap, a: AttribMap, b: AttribMap, mutation: bool)
    ensures ComposeMaps(ComposeMaps(x, a, mutation), b, mutation) == ComposeMaps(x, ComposeMaps(a, b, true), mutation)
  {
    var xa, ab := ComposeMaps(x, a, mutation), ComposeMaps(a, b, true);
    forall k: Key ensures At(ComposeMaps(xa, b, mutation), k) == At(ComposeMaps(x, ab, mutation), k) {
      ComposeAt(x, a, mutation, k);
      ComposeAt(xa, b, mutation, k);
      ComposeAt(a, b, true, k);
      ComposeAt(x, ab, mutation, k);
    }
    SameEverywhere(ComposeMaps(xa, b, mutation), ComposeMaps(x, ab, mutation));
  }

  lemma ComposeAssociative(x: Attribs, a: Attribs, b: Attribs, mutation: bool)
    ensures ComposeAttributes(ComposeAttributes(x, a, mutation), b, mutation)
         == ComposeAttributes(x, ComposeAttributes(a, b, true), mutation)
  {
    MapsAssociative(MapOf(x), MapOf(a), MapOf(b), mutation);
  }

  lemma ComposeUnits(a: Attribs, mutation: bool)
    ensures ComposeAttributes(a, [], mutation) == a
    ensures ComposeAttributes([], a, true) == a
  {
    assert MapOf([]) == map[];
    assert ComposeMaps(MapOf(a), map[], mutation) == MapOf(a);
    assert ComposeMaps(map[], MapOf(a), true) == MapOf(a);
    ListingOfMap(a);
  }

  lemma ComposeIdempotent(x: Attribs, a: Attribs, mutation: bool)
    ensures ComposeAttributes(ComposeAttributes(x, a, mutation), a, mutation) == ComposeAttributes(x, a, mutation)
  {
    assert ComposeMaps(ComposeMaps(MapOf(x), MapOf(a), mutation), MapOf(a), mutation)
        == ComposeMaps(MapOf(x), MapOf(a), mutation);
  }

  // ---------- following: what is left of `a2` once `a1` has been applied

  ghost predicate Survives(m1: AttribMap, m2: AttribMap, k: Key)
    requires k in m2
  {
    k in m1 ==> !StrLe(m1[k], m2[k])
  }

  ghost function FollowMaps(m1: AttribMap, m2: AttribMap): AttribMap {
    map k | k in m2 && Survives(m1, m2, k) :: m2[k]
  }

  ghost function FollowAttributes(a1: Attribs, a2: Attribs): Attribs {
    Listing(FollowMaps(MapOf(a1), MapOf(a2)))
  }

  lemma FollowUnits(a: Attribs)
    ensures FollowAttributes(a, []) == [] && FollowAttributes([], a) == a
  {
    assert MapOf([]) == map[];
    assert FollowMaps(MapOf(a), map[]) == map[];
    assert FollowMaps(map[], MapOf(a)) == MapOf(a);
    ListingOfMap(a);
    ListingOfMap([]);
  }

  ghost function Left(a: Binding, b: Binding): Binding {
    if a.Bound? && b.Bound? && StrLe(a.value, b.value) then Unbound else b
  }

  lemma FollowAt(a: AttribMap, b: AttribMap, k: Key)
    ensures At(FollowMaps(a, b), k) == Left(At(a, k), At(b, k))
  {}

  // Exactly the pairs of the second change whose values come before what the first gives
  // their keys, if it gives them anything.
  lemma FollowedHas(a1: Attribs, a2: Attribs, p: Pair)
    ensures p in FollowAttributes(a1, a2) <==>
              p in a2 && forall q :: q in a1 && q.key == p.key ==> Earlier(p.value, q.value)
  {
    hide MapOf, FollowMaps, StrLe, Earlier;
    MapOfHas(a1);
    MapOfHas(a2);
    MapOfHas(FollowAttributes(a1, a2));
    FollowAt(MapOf(a1), MapOf(a2), p.key);
    SilentOn(a1, p.key);
    if p.key in MapOf(a1) {
      var v := MapOf(a1)[p.key];
      assert Pair(p.key, v) in a1;
      assert forall q :: q in a1 && q.key == p.key ==> q.value == v;
      NotLater(v, p.value);
    }
  }

  lemma OverLeftConverge(x: Binding, a: Binding, b: Binding, mutation: bool)
    ensures Over(Over(x, a, mutation), Left(a, b), mutation) == Over(Over(x, b, mutation), Left(b, a), mutation)
  {
    if a.Bound? && b.Bound? {
      StrLeTotal(a.value, b.value);
      if StrLe(a.value, b.value) && StrLe(b.value, a.value) { StrLeAntisymmetric(a.value, b.value); }
    }
  }

  lemma MapsConverge(x: AttribMap, a: AttribMap, b: AttribMap, mutation: bool)
    ensures ComposeMaps(ComposeMaps(x, a, mutation), FollowMaps(a, b), mutation)
         == ComposeMaps(ComposeMaps(x, b, mutation), FollowMaps(b, a), mutation)
  {
    var xa, xb := ComposeMaps(x, a, mutation), ComposeMaps(x, b, mutation);
    var l, r := ComposeMaps(xa, FollowMaps(a, b), mutation), ComposeMaps(xb, FollowMaps(b, a), mutation);
    forall k: Key ensures At(l, k) == At(r, k) {
      ComposeAt(x, a, mutation, k);
      ComposeAt(x, b, mutation, k);
      FollowAt(a, b, k);
      FollowAt(b, a, k);
      ComposeAt(xa, FollowMaps(a, b), mutation, k);
      ComposeAt(xb, FollowMaps(b, a), mutation, k);
      OverLeftConverge(At(x, k), At(a, k), At(b, k), mutation);
    }
    SameEverywhere(l, r);
  }

  // The two orders of merging two attribute changes meet, for a pending mutation and for
  // the style of a character alike.
  lemma AttributesMeet(x: Attribs, a: Attribs, b: Attribs, mutation: bool)
    ensures ComposeAttributes(ComposeAttributes(x, a, mutation), FollowAttributes(a, b), mutation)
         == ComposeAttributes(ComposeAttributes(x, b, mutation), FollowAttributes(b, a), mutation)
  {
    MapsConverge(MapOf(x), MapOf(a), MapOf(b), mutation);
  }

  // All changes of both; for one key, the lexically earlier value of the two.
  ghost function MergedBinding(a: Binding, b: Binding): Binding {
    if a.Bound? && b.Bound? then (if Earlier(b.value, a.value) then b else a)
    else if a.Bound? then a
    else b
  }

  // Both orders give every key what the merge of the two changes gives it.
  lemma AttributesConverge(x: Attribs, a: Attribs, b: Attribs, mutation: bool)
    ensures var m := ComposeAttributes(ComposeAttributes(x, a, mutation), FollowAttributes(a, b), mutation);
            && m == ComposeAttributes(ComposeAttributes(x, b, mutation), FollowAttributes(b, a), mutation)
            && forall k: Key ::
                 At(MapOf(m), k) == Over(At(MapOf(x), k), MergedBinding(At(MapOf(a), k), At(MapOf(b), k)), mutation)
  {
    hide MapOf, ComposeMaps, FollowMaps;
    AttributesMeet(x, a, b, mutation);
    var xa := ComposeMaps(MapOf(x), MapOf(a), mutation);
    forall k: Key
      ensures At(ComposeMaps(xa, FollowMaps(MapOf(a), MapOf(b)), mutation), k)
           == Over(At(MapOf(x), k), MergedBinding(At(MapOf(a), k), At(MapOf(b), k)), mutation)
    {
      ComposeAt(MapOf(x), MapOf(a), mutation, k);
      ComposeAt(xa, FollowMaps(MapOf(a), MapOf(b)), mutation, k);
      FollowAt(MapOf(a), MapOf(b), k);
      LeftIsMerged(At(MapOf(x), k), At(MapOf(a), k), At(MapOf(b), k), mutation);
    }
  }

  lemma LeftIsMerged(x: Binding, a: Binding, b: Binding, mutation: bool)
    ensures Over(Over(x, a, mutation), Left(a, b), mutation) == Over(x, MergedBinding(a, b), mutation)
  {
    if a.Bound? && b.Bound? { NotLater(a.value, b.value); }
  }
}
