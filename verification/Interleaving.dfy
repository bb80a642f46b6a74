/** Two sequences put into one, each in its own order. */
module Interleaving {

  ghost predicate Interleaved<T(!new)>(m: seq<T>, x: seq<T>, y: seq<T>)
    decreases |m|
  {
    if m == [] then x == [] && y == []
    else
      || (x != [] && m[0] == x[0] && Interleaved(m[1..], x[1..], y))
      || (y != [] && m[0] == y[0] && Interleaved(m[1..], x, y[1..]))
  }

  lemma {:induction false} InterleavedSize<T(!new)>(m: seq<T>, x: seq<T>, y: seq<T>)
    requires Interleaved(m, x, y)
    ensures |m| == |x| + |y|
    decreases |m|
  {
    if m != [] {
      if x != [] && m[0] == x[0] && Interleaved(m[1..], x[1..], y) {
        InterleavedSize(m[1..], x[1..], y);
      } else {
        InterleavedSize(m[1..], x, y[1..]);
      }
    }
  }

  lemma {:induction false} InterleavedSwaps<T(!new)>(m: seq<T>, x: seq<T>, y: seq<T>)
    requires Interleaved(m, x, y)
    ensures Interleaved(m, y, x)
    decreases |m|
  {
    if m != [] {
      if x != [] && m[0] == x[0] && Interleaved(m[1..], x[1..], y) {
        InterleavedSwaps(m[1..], x[1..], y);
      } else {
        InterleavedSwaps(m[1..], x, y[1..]);
      }
    }
  }

  lemma InterleavedFirst<T(!new)>(u: T, m: seq<T>, x: seq<T>, y: seq<T>)
    requires Interleaved(m, x, y)
    ensures Interleaved([u] + m, [u] + x, y) && Interleaved([u] + m, x, [u] + y)
  {
    assert ([u] + m)[1..] == m && ([u] + x)[1..] == x && ([u] + y)[1..] == y;
  }
}
