/** `composeAttributes` and `followAttributes`, which work on a list in place. */
module AttributeMerging {
  import opened Ordering
  import opened Attributes

  lemma MapOfSnoc(a: seq<Pair>, p: Pair)
    ensures MapOf(a + [p]) == MapOf(a)[p.key := p.value]
  {
    assert (a + [p])[..|a|] == a;
  }

  lemma MapOfPrefix(a: seq<Pair>, i: nat)
    requires i < |a|
    ensures MapOf(a[..i + 1]) == MapOf(a[..i])[a[i].key := a[i].value]
  {
    assert a[..i + 1] == a[..i] + [a[i]];
    MapOfSnoc(a[..i], a[i]);
  }

  lemma MapOfUpdate(a: seq<Pair>, j: nat, v: string)
    requires j < |a| && DistinctKeys(a)
    ensures DistinctKeys(a[j := Pair(a[j].key, v)])
    ensures MapOf(a[j := Pair(a[j].key, v)]) == MapOf(a)[a[j].key := v]
  {
    var b := a[j := Pair(a[j].key, v)];
    MapOfHas(a);
    MapOfHas(b);
    forall p: Pair ensures Binds(MapOf(b), p) <==> Binds(MapOf(a)[a[j].key := v], p) {
      assert b[j] == Pair(a[j].key, v);
      if p.key != a[j].key {
        if p in a { var i :| 0 <= i < |a| && a[i] == p; assert b[i] == p; }
        if p in b { var i :| 0 <= i < |b| && b[i] == p; assert a[i] == p; }
      } else if p in b {
        var i :| 0 <= i < |b| && b[i] == p;
        assert b[i].key == b[j].key;
      }
    }
    MapsAgree(MapOf(b), MapOf(a)[a[j].key := v]);
  }

  lemma RemoveMembers(a: seq<Pair>, j: nat, p: Pair)
    requires j < |a| && DistinctKeys(a)
    ensures p in a[..j] + a[j + 1..] <==> p in a && p.key != a[j].key
  {
    var b := a[..j] + a[j + 1..];
    if p in a && p.key != a[j].key {
      var i :| 0 <= i < |a| && a[i] == p;
      assert b[if i < j then i else i - 1] == p;
    }
    if p in b {
      var i :| 0 <= i < |b| && b[i] == p;
      assert a[if i < j then i else i + 1] == p;
    }
  }

  lemma RemoveDistinct(a: seq<Pair>, j: nat)
    requires j < |a| && DistinctKeys(a)
    ensures DistinctKeys(a[..j] + a[j + 1..])
  {
    var b := a[..j] + a[j + 1..];
    forall x, y | 0 <= x < y < |b| ensures b[x].key != b[y].key {
      assert a[if x < j then x else x + 1].key != a[if y < j then y else y + 1].key;
    }
  }

  lemma MapOfRemove(a: seq<Pair>, j: nat)
    requires j < |a| && DistinctKeys(a)
    ensures DistinctKeys(a[..j] + a[j + 1..])
    ensures MapOf(a[..j] + a[j + 1..]) == MapOf(a) - {a[j].key}
  {
    hide MapOf, DistinctKeys;
    var b := a[..j] + a[j + 1..];
    RemoveDistinct(a, j);
    MapOfHas(a);
    MapOfHas(b);
    forall p: Pair ensures Binds(MapOf(b), p) <==> Binds(MapOf(a) - {a[j].key}, p) {
      RemoveMembers(a, j, p);
    }
    MapsAgree(MapOf(b), MapOf(a) - {a[j].key});
  }

  lemma NotBound(a: seq<Pair>, k: Key)
    requires DistinctKeys(a) && forall i :: 0 <= i < |a| ==> a[i].key != k
    ensures k !in MapOf(a)
  {
    MapOfHas(a);
    if k in MapOf(a) {
      assert Binds(MapOf(a), Pair(k, MapOf(a)[k]));
    }
  }

  lemma BoundAt(a: seq<Pair>, j: nat)
    requires DistinctKeys(a) && j < |a|
    ensures a[j].key in MapOf(a) && MapOf(a)[a[j].key] == a[j].value
  {
    MapOfHas(a);
    assert Binds(MapOf(a), a[j]);
  }

  lemma ComposeMapsNext(m1: AttribMap, m2: AttribMap, p: Pair, mutation: bool)
    requires p.key !in m2
    ensures ComposeMaps(m1, m2[p.key := p.value], mutation)
         == if p.value != "" || mutation then ComposeMaps(m1, m2, mutation)[p.key := p.value]
            else ComposeMaps(m1, m2, mutation) - {p.key}
  {}

  lemma NothingYet(m: AttribMap, mutation: bool)
    ensures MapOf([]) == map[] && ComposeMaps(m, map[], mutation) == m && FollowMaps(map[], m) == m
  {}

  lemma KeysAhead(a: Attribs, i: nat)
    requires i < |a|
    ensures DistinctKeys(a[..i]) && a[i].key !in MapOf(a[..i])
  {
    forall j | 0 <= j < i ensures a[..i][j].key != a[i].key { assert Before(a[j], a[i]); }
    forall j, k | 0 <= j < k < i ensures a[..i][j].key != a[..i][k].key { assert Before(a[j], a[k]); }
    NotBound(a[..i], a[i].key);
  }

  method FindKey(atts: seq<Pair>, k: Key) returns (j: nat)
    ensures j <= |atts| && (forall i :: 0 <= i < j ==> atts[i].key != k)
    ensures j < |atts| ==> atts[j].key == k
  {
    j := 0;
    while j < |atts| && atts[j].key != k
      invariant j <= |atts| && forall i :: 0 <= i < j ==> atts[i].key != k
    {
      j := j + 1;
    }
  }

  method MergeCompose(att1: Attribs, att2: Attribs, resultIsMutation: bool) returns (r: Attribs)
    ensures r == ComposeAttributes(att1, att2, resultIsMutation)
    ensures forall p :: p in r <==>
              || (p in att2 && (resultIsMutation || p.value != ""))
              || (p in att1 && forall q :: q in att2 ==> q.key != p.key)
  {
    hide ComposeMaps, MapOf;
    forall p { ComposedHas(att1, att2, resultIsMutation, p); }
    ComposeUnits(att1, resultIsMutation);
    ComposeUnits(att2, resultIsMutation);
    if att1 == [] && resultIsMutation { return att2; }
    if att2 == [] { return att1; }
    var atts: seq<Pair> := att1;
    assert att2[..0] == [];
    NothingYet(MapOf(att1), resultIsMutation);
    for i := 0 to |att2|
      invariant DistinctKeys(atts)
      invariant MapOf(atts) == ComposeMaps(MapOf(att1), MapOf(att2[..i]), resultIsMutation)
    {
      var pair := att2[i];
      MapOfPrefix(att2, i);
      KeysAhead(att2, i);
      ComposeMapsNext(MapOf(att1), MapOf(att2[..i]), pair, resultIsMutation);
      var j := FindKey(atts, pair.key);
      if j < |atts| {
        if pair.value != "" || resultIsMutation {
          MapOfUpdate(atts, j, pair.value);
          atts := atts[j := Pair(atts[j].key, pair.value)];
        } else {
          MapOfRemove(atts, j);
          atts := atts[..j] + atts[j + 1..];
        }
      } else {
        NotBound(atts, pair.key);
        if pair.value != "" || resultIsMutation {
          MapOfSnoc(atts, pair);
          atts := atts + [pair];
        } else {
          assert MapOf(atts) - {pair.key} == MapOf(atts);
        }
      }
    }
    assert att2[..|att2|] == att2;
    SortCorrect(atts);
    r := Sort(atts);
    SameMapSameList(r, ComposeAttributes(att1, att2, resultIsMutation));
  }

  lemma FollowMapsNext(m1: AttribMap, m2: AttribMap, p: Pair)
    requires p.key !in m1
    ensures FollowMaps(m1[p.key := p.value], m2)
         == if p.key in m2 && StrLe(p.value, m2[p.key]) then FollowMaps(m1, m2) - {p.key} else FollowMaps(m1, m2)
    ensures p.key in FollowMaps(m1, m2) <==> p.key in m2
    ensures p.key in m2 ==> FollowMaps(m1, m2)[p.key] == m2[p.key]
  {}

  lemma RemoveSorted(a: seq<Pair>, j: nat)
    requires j < |a| && Sorted(a)
    ensures Sorted(a[..j] + a[j + 1..])
  {
    var b := a[..j] + a[j + 1..];
    forall x, y | 0 <= x < y < |b| ensures Before(b[x], b[y]) {
      assert Before(a[if x < j then x else x + 1], a[if y < j then y else y + 1]);
    }
  }

  method MergeFollow(att1: Attribs, att2: Attribs) returns (r: Attribs)
    ensures r == FollowAttributes(att1, att2)
    ensures forall p :: p in r <==>
              p in att2 && forall q :: q in att1 && q.key == p.key ==> Earlier(p.value, q.value)
    ensures forall p, q :: p in r && q in att1 && q.value == "" ==> p.key != q.key
    ensures forall p :: p in att2 && p.value == "" && p !in att1 ==> p in r
  {
    hide FollowMaps, MapOf;
    forall p { FollowedHas(att1, att2, p); }
    FollowUnits(att1);
    FollowUnits(att2);
    if att2 == [] { return []; }
    if att1 == [] { return att2; }
    var atts: seq<Pair> := att2;
    assert att1[..0] == [];
    NothingYet(MapOf(att2), false);
    for i := 0 to |att1|
      invariant Sorted(atts)
      invariant MapOf(atts) == FollowMaps(MapOf(att1[..i]), MapOf(att2))
    {
      var pair1 := att1[i];
      MapOfPrefix(att1, i);
      KeysAhead(att1, i);
      FollowMapsNext(MapOf(att1[..i]), MapOf(att2), pair1);
      var j := FindKey(atts, pair1.key);
      if j < |atts| {
        BoundAt(atts, j);
        if StrLe(pair1.value, atts[j].value) {
          // the winner of the merge is pair1
          MapOfRemove(atts, j);
          RemoveSorted(atts, j);
          atts := atts[..j] + atts[j + 1..];
        }
      } else {
        NotBound(atts, pair1.key);
      }
    }
    assert att1[..|att1|] == att1;
    r := atts;
    SameMapSameList(r, FollowAttributes(att1, att2));
  }
}
