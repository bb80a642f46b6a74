/** Taking the styles off text before putting on those found in the page. */
module StyleClearing {
  import opened Ordering
  import opened Attributes
  import opened AttributeMerging
  import opened Inversion
  import opened LineDiff

  // The styles among some attributes, with the values that clear them.
  function Clearing(a: seq<Pair>): seq<Pair> {
    if a == [] then [] else (if a[0].key in STYLE_ATTRIBS then [Pair(a[0].key, "")] else []) + Clearing(a[1..])
  }

  lemma StylesByFirstLetter(p: Pair, q: Pair)
    requires p.key in STYLE_ATTRIBS && q.key in STYLE_ATTRIBS && p.key != q.key
    ensures p.key != "" && q.key != "" && (Before(p, q) <==> p.key[0] < q.key[0])
  {
    var a, b := PairText(p), PairText(q);
    assert a[0] == p.key[0] && b[0] == q.key[0];
  }

  lemma {:induction false} ClearingKeys(a: seq<Pair>, i: nat)
    requires i < |Clearing(a)|
    ensures exists j :: 0 <= j < |a| && Clearing(a)[i] == Pair(a[j].key, "") && a[j].key in STYLE_ATTRIBS
  {
    var n := if a[0].key in STYLE_ATTRIBS then 1 else 0;
    if i >= n {
      ClearingKeys(a[1..], i - n);
      var j :| 0 <= j < |a[1..]| && Clearing(a[1..])[i - n] == Pair(a[1..][j].key, "")
          && a[1..][j].key in STYLE_ATTRIBS;
      assert a[1..][j] == a[j + 1];
    }
  }

  lemma {:induction false} ClearingSorted(a: seq<Pair>)
    requires Sorted(a)
    ensures Sorted(Clearing(a))
  {
    hide Before;
    if a != [] {
      ClearingSorted(a[1..]);
      if a[0].key in STYLE_ATTRIBS {
        var c := Clearing(a[1..]);
        forall i | 0 <= i < |c| ensures Before(Pair(a[0].key, ""), c[i]) {
          ClearingKeys(a[1..], i);
          var j :| 0 <= j < |a[1..]| && c[i] == Pair(a[1..][j].key, "") && a[1..][j].key in STYLE_ATTRIBS;
          assert Before(a[0], a[j + 1]);
          BeforeKeys(a[0], a[j + 1]);
          StylesByFirstLetter(a[0], a[j + 1]);
          StylesByFirstLetter(Pair(a[0].key, ""), c[i]);
        }
      }
    }
  }

  lemma BeforeKeys(p: Pair, q: Pair)
    requires Before(p, q)
    ensures p.key != q.key
  {}

  ghost function Cleared(a: Attribs): Attribs {
    ClearingSorted(a);
    Clearing(a)
  }

  lemma ClearingMap(a: seq<Pair>, k: Key)
    requires DistinctKeys(a)
    ensures k in MapOf(Clearing(a)) <==> k in STYLE_ATTRIBS && k in MapOf(a)
    ensures k in MapOf(Clearing(a)) ==> MapOf(Clearing(a))[k] == ""
  {
    hide MapOf;
    ClearingDistinct(a);
    MapOfHas(a);
    MapOfHas(Clearing(a));
    MapKeys(a, k);
    MapKeys(Clearing(a), k);
    ClearingHas(a, k);
    ClearingValues(a);
    HasKeyIff(a, k);
    HasKeyIff(Clearing(a), k);
  }

  lemma MapKeys(a: seq<Pair>, k: Key)
    requires DistinctKeys(a)
    ensures k in MapOf(a) <==> exists i :: 0 <= i < |a| && a[i].key == k
    ensures forall i :: 0 <= i < |a| && a[i].key == k ==> k in MapOf(a) && MapOf(a)[k] == a[i].value
  {
    hide MapOf;
    if exists i :: 0 <= i < |a| && a[i].key == k {
      var i :| 0 <= i < |a| && a[i].key == k;
      BoundAt(a, i);
    } else {
      NotBound(a, k);
    }
    forall i | 0 <= i < |a| && a[i].key == k ensures k in MapOf(a) && MapOf(a)[k] == a[i].value { BoundAt(a, i); }
  }

  predicate HasKey(a: seq<Pair>, k: Key) { a != [] && (a[0].key == k || HasKey(a[1..], k)) }

  lemma {:induction false} HasKeyIff(a: seq<Pair>, k: Key)
    ensures HasKey(a, k) <==> exists i :: 0 <= i < |a| && a[i].key == k
  {
    if a != [] {
      HasKeyIff(a[1..], k);
      if HasKey(a[1..], k) {
        var i :| 0 <= i < |a[1..]| && a[1..][i].key == k;
        assert a[i + 1].key == k;
      }
      if exists i :: 0 <= i < |a| && a[i].key == k {
        var i :| 0 <= i < |a| && a[i].key == k;
        if i > 0 { assert a[1..][i - 1].key == k; }
      }
    }
  }

  lemma {:induction false} ClearingHas(a: seq<Pair>, k: Key)
    ensures HasKey(Clearing(a), k) <==> k in STYLE_ATTRIBS && HasKey(a, k)
  {
    if a != [] {
      ClearingHas(a[1..], k);
      assert [Pair(a[0].key, "")] + Clearing(a[1..]) != []
          && ([Pair(a[0].key, "")] + Clearing(a[1..]))[1..] == Clearing(a[1..]);
      assert [] + Clearing(a[1..]) == Clearing(a[1..]);
    }
  }

  lemma {:induction false} ClearingValues(a: seq<Pair>)
    ensures forall i :: 0 <= i < |Clearing(a)| ==> Clearing(a)[i].value == ""
  {
    if a != [] { ClearingValues(a[1..]); }
  }

  lemma ClearingDistinct(a: seq<Pair>)
    requires DistinctKeys(a)
    ensures DistinctKeys(Clearing(a))
  {
    if a != [] {
      ClearingDistinct(a[1..]);
      var c := Clearing(a[1..]);
      forall i | 0 <= i < |c| ensures c[i].key != a[0].key {
        ClearingKeys(a[1..], i);
      }
    }
  }

  // Clearing the styles of a character and putting on those in the page leaves it the styles
  // in the page, and of its other attributes those that the page does not set.
  lemma StylesReplaced(x: Attribs, y: Attribs, k: Key)
    requires NoEmptyValues(x) && NoEmptyValues(y) && DistinctKeys(x)
    ensures var m := MapOf(ComposeAttributes(ComposeAttributes(x, Cleared(x), false), y, false));
            && (k in STYLE_ATTRIBS ==> At(m, k) == At(MapOf(y), k))
            && (k !in STYLE_ATTRIBS ==> At(m, k) == if k in MapOf(y) then At(MapOf(y), k) else At(MapOf(x), k))
  {
    ClearingMap(x, k);
    var z := ComposeAttributes(x, Cleared(x), false);
    assert MapOf(z) == ComposeMaps(MapOf(x), MapOf(Cleared(x)), false);
    assert MapOf(ComposeAttributes(z, y, false)) == ComposeMaps(MapOf(z), MapOf(y), false);
  }
}
