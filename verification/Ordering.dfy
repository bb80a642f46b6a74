// The total order that JavaScript's `<=` and `Array.sort` use on strings.
module Ordering {

  predicate StrLe(a: string, b: string) {
    if a == [] then true
    else if b == [] then false
    else if a[0] != b[0] then a[0] < b[0]
    else StrLe(a[1..], b[1..])
  }

  lemma StrLeTotal(a: string, b: string)
    ensures StrLe(a, b) || StrLe(b, a)
  {}

  lemma {:induction false} StrLeAntisymmetric(a: string, b: string)
    requires StrLe(a, b) && StrLe(b, a)
    ensures a == b
  {
    if a != [] {
      StrLeAntisymmetric(a[1..], b[1..]);
      assert a == [a[0]] + a[1..] && b == [b[0]] + b[1..];
    }
  }

  lemma StrLeTransitive(a: string, b: string, c: string)
    requires StrLe(a, b) && StrLe(b, c)
    ensures StrLe(a, c)
  {}

  // ---------- the order, character by character

  // Up to `i` the two are the same, and there `a` has the smaller character.
  ghost predicate SmallerAt(a: string, b: string, i: nat) {
    i < |a| && i < |b| && a[..i] == b[..i] && a[i] < b[i]
  }

  // `a` is a proper beginning of `b`, or smaller where the two first differ.
  ghost predicate Earlier(a: string, b: string) {
    a < b || exists i: nat :: SmallerAt(a, b, i)
  }

  lemma {:induction false} StrLeIs(a: string, b: string)
    ensures StrLe(a, b) <==> a == b || Earlier(a, b)
    decreases |a|
  {
    if a != [] && b != [] {
      assert a == [a[0]] + a[1..] && b == [b[0]] + b[1..];
      if a[0] < b[0] {
        assert SmallerAt(a, b, 0);
      } else if a[0] == b[0] {
        StrLeIs(a[1..], b[1..]);
        FrontSame(a, b);
      } else {
        forall i: nat ensures !SmallerAt(a, b, i) { SmallerStart(a, b, i); }
      }
    }
  }

  lemma SmallerStart(a: string, b: string, i: nat)
    requires a != [] && b != []
    ensures SmallerAt(a, b, i) ==> a[0] <= b[0]
  {
    if SmallerAt(a, b, i) && i > 0 {
      assert a[0] == a[..i][0] && b[0] == b[..i][0];
    }
  }

  lemma FrontSame(a: string, b: string)
    requires a != [] && b != [] && a[0] == b[0]
    ensures Earlier(a, b) <==> Earlier(a[1..], b[1..])
  {
    var x, y := a[1..], b[1..];
    assert a == [a[0]] + x && b == [b[0]] + y;
    if exists i: nat :: SmallerAt(a, b, i) {
      var i: nat :| SmallerAt(a, b, i);
      assert x[..i - 1] == a[..i][1..] && y[..i - 1] == b[..i][1..];
      assert SmallerAt(x, y, i - 1);
    }
    if exists i: nat :: SmallerAt(x, y, i) {
      var i: nat :| SmallerAt(x, y, i);
      assert a[..i + 1] == [a[0]] + x[..i] && b[..i + 1] == [b[0]] + y[..i];
      assert SmallerAt(a, b, i + 1);
    }
  }

  lemma NotLater(a: string, b: string)
    ensures !StrLe(a, b) <==> Earlier(b, a)
  {
    StrLeIs(a, b);
    StrLeIs(b, a);
    StrLeTotal(a, b);
    if StrLe(a, b) && StrLe(b, a) { StrLeAntisymmetric(a, b); }
    if a == b { NotEarlierThanItself(a); }
  }

  lemma EarlierIs(a: string, b: string)
    requires Earlier(a, b)
    ensures StrLe(a, b) && a != b
  {
    StrLeIs(a, b);
    NotEarlierThanItself(a);
  }

  lemma NotEarlierThanItself(a: string)
    ensures !Earlier(a, a)
  {}
}
