/** Attributed texts that carry attribute numbers, read in one pool or in another. */
module NumberedTexts {
  import opened Attributes
  import opened Changesets
  import opened NormalForm
  import opened Applying
  import opened Inversion
  import opened LineMutation
  import opened Layers
  import opened Pools

  // Every number is known, and the pairs are attributes a character can have.
  predicate NumsWellRead(pool: seq<Pair>, nums: seq<nat>) {
    Known(pool, nums) && Sorted(Pairs(pool, nums)) && NoEmptyValues(Pairs(pool, nums))
  }

  predicate WellRead(pool: seq<Pair>, ops: seq<NumOp>) {
    forall i :: 0 <= i < |ops| ==> NumsWellRead(pool, ops[i].nums)
  }

  lemma WellReadIsReadable(pool: seq<Pair>, ops: seq<NumOp>)
    requires WellRead(pool, ops)
    ensures Readable(pool, ops) && AllKnown(pool, ops)
  {
    hide NoEmptyValues, Sorted, Pairs;
    forall i | 0 <= i < |ops| ensures NumsWellRead(pool, ops[i].nums) {}
  }

  // What the ops say in a pool, if they say anything there.
  method ReadIn(pool: AttribPool, ops: seq<NumOp>) returns (r: Option<seq<Op>>)
    requires pool.Valid()
    ensures r.Some? <==> WellRead(pool.Contents(), ops)
    ensures r.Some? ==> Readable(pool.Contents(), ops) && r.value == Read(pool.Contents(), ops)
  {
    hide WellRead, NoEmptyValues, Sorted, AttribPool.Valid, AttribPool.Contents, Pairs;
    var pairs := [];
    ContentsLength(pool);
    for n := 0 to pool.nextNum
      invariant |pool.Contents()| == pool.nextNum && pairs == pool.Contents()[..n]
    {
      var pair := pool.GetAttrib(n);
      pairs := pairs + [pair.value];
    }
    assert pairs == pool.Contents();
    if WellRead(pairs, ops) {
      WellReadIsReadable(pairs, ops);
      r := Some(Read(pairs, ops));
    } else {
      r := None;
    }
  }

  lemma ContentsLength(pool: AttribPool)
    requires pool.Valid()
    ensures |pool.Contents()| == pool.nextNum
  {}

  // ---------- two readings of one text

  ghost predicate SameShape(a: seq<Op>, b: seq<Op>) {
    |a| == |b| && forall i :: 0 <= i < |a| ==>
      a[i].opcode == b[i].opcode && a[i].chars == b[i].chars && a[i].lines == b[i].lines
  }

  // Each op has the same attributes in both, but perhaps one for the final character alone.
  ghost predicate SameAttribsButFinal(a: seq<Op>, b: seq<Op>)
    requires |a| == |b|
  {
    forall i :: 0 <= i < |a| ==> a[i].attribs == b[i].attribs || (i == |a| - 1 && a[i].chars == 1)
  }

  ghost predicate SameButFinal(a: Doc, d: Doc) {
    a != [] && d != [] && a[..|a| - 1] == d[..|d| - 1]
  }

  lemma {:induction false} ReadingsAgree(a: seq<Op>, b: seq<Op>, text: string)
    requires SameShape(a, b) && a != [] && Fits(a, text, []) && Fits(b, text, [])
    ensures SameButFinal(Apply(a, text, []), Apply(b, text, [])) <==> SameAttribsButFinal(a, b)
    decreases |a|
  {
    hide LinesTrue, Typed;
    var k := a[0].chars;
    var x, y := Typed(text[..k], a[0].attribs), Typed(text[..k], b[0].attribs);
    NothingToKeep(a[0], text);
    NothingToKeep(b[0], text);
    var p, q := Apply(a[1..], text[k..], []), Apply(b[1..], text[k..], []);
    assert Apply(a, text, []) == x + p && Apply(b, text, []) == y + q;
    TypedTellsAttribs(text[..k], a[0].attribs, b[0].attribs);
    if |a| == 1 {
      assert x + p == x && y + q == y;
    } else {
      assert SameShape(a[1..], b[1..]);
      ReadingsAgree(a[1..], b[1..], text[k..]);
      SomeTyped(a[1..], text[k..]);
      SomeTyped(b[1..], text[k..]);
      BehindFronts(x, y, p, q);
      ButFinalTail(a, b);
    }
  }

  lemma ButFinalTail(a: seq<Op>, b: seq<Op>)
    requires |a| == |b| >= 2
    ensures SameAttribsButFinal(a, b) <==> a[0].attribs == b[0].attribs && SameAttribsButFinal(a[1..], b[1..])
  {
    if a[0].attribs == b[0].attribs && SameAttribsButFinal(a[1..], b[1..]) {
      forall i | 0 <= i < |a| ensures a[i].attribs == b[i].attribs || (i == |a| - 1 && a[i].chars == 1) {
        if i > 0 { assert a[1..][i - 1] == a[i] && b[1..][i - 1] == b[i]; }
      }
    }
  }

  lemma NothingToKeep(op: Op, text: string)
    requires OpFits(op, text, [])
    ensures op.opcode == Insert && 0 < op.chars <= |text|
  {}

  lemma SomeTyped(a: seq<Op>, text: string)
    requires a != [] && Fits(a, text, [])
    ensures Apply(a, text, []) != []
  {
    NothingToKeep(a[0], text);
  }

  lemma TypedTellsAttribs(s: string, a: Attribs, b: Attribs)
    requires s != ""
    ensures Typed(s, a) != [] && |Typed(s, a)| == |Typed(s, b)| == |s|
    ensures Typed(s, a) == Typed(s, b) <==> a == b
    ensures SameButFinal(Typed(s, a), Typed(s, b)) <==> a == b || |s| == 1
  {
    assert Typed(s, a)[0] == New(s[0], a) && Typed(s, b)[0] == New(s[0], b);
    if |s| > 1 {
      assert Typed(s, a)[..|s| - 1][0] == New(s[0], a) && Typed(s, b)[..|s| - 1][0] == New(s[0], b);
    }
  }

  lemma BehindFronts(x: Doc, y: Doc, p: Doc, q: Doc)
    requires |x| == |y| && p != [] && q != []
    ensures SameButFinal(x + p, y + q) <==> x == y && SameButFinal(p, q)
  {
    assert (x + p)[..|x + p| - 1] == x + p[..|p| - 1] && (y + q)[..|y + q| - 1] == y + q[..|q| - 1];
    if SameButFinal(x + p, y + q) {
      var u, v := x + p[..|p| - 1], y + q[..|q| - 1];
      assert u == v && x == u[..|x|] && y == v[..|x|] && p[..|p| - 1] == u[|x|..] && q[..|q| - 1] == v[|x|..];
    }
  }

  // ---------- numbers that were not translated

  // A number of none of the ops would be another; but perhaps for the final character alone.
  ghost predicate NothingRenumbered(ops: seq<NumOp>, moved: seq<NumOp>) {
    && |ops| == |moved|
    && forall i :: 0 <= i < |ops| ==> ops[i].nums == moved[i].nums || (i == |ops| - 1 && ops[i].chars == 1)
  }

  // Ops of one pool, read by the same numbers in the pool they were moved to, make the same
  // text exactly if nothing was renumbered.
  lemma ReadInOther(wire: seq<Pair>, local: seq<Pair>, ops: seq<NumOp>, text: string)
    requires Readable(wire, ops) && Distinct(local) && ops != [] && Fits(Read(wire, ops), text, [])
    ensures var (moved, pool) := MovedOps(wire, local, ops);
            && Readable(pool, moved) && Read(pool, moved) == Read(wire, ops)
            && (Readable(pool, ops) ==>
                  && Fits(Read(pool, ops), text, [])
                  && (SameButFinal(Apply(Read(pool, ops), text, []), Apply(Read(wire, ops), text, []))
                      <==> NothingRenumbered(ops, moved)))
            && (moved == ops ==> Readable(pool, ops))
  {
    hide MovedOps, Pairs, Sorted, Fits, Apply, SameButFinal, Distinct;
    MovingKeepsMeaning(wire, local, ops);
    MovedOpsMean(wire, local, ops);
    var (moved, pool) := MovedOps(wire, local, ops);
    assert forall i :: 0 <= i < |ops| ==> SameOp(wire, ops[i], pool, moved[i]);
    if Readable(pool, ops) {
      var a, b := Read(pool, ops), Read(wire, ops);
      assert SameShape(a, b);
      FitsByShape(b, a, text);
      ReadingsAgree(a, b, text);
      forall i | 0 <= i < |ops| ensures a[i].attribs == b[i].attribs <==> ops[i].nums == moved[i].nums {
        SameNumsSamePairs(pool, ops[i].nums, moved[i].nums);
      }
    }
  }

  lemma SameNumsSamePairs(pool: seq<Pair>, a: seq<nat>, b: seq<nat>)
    requires Distinct(pool) && Known(pool, a) && Known(pool, b)
    ensures Pairs(pool, a) == Pairs(pool, b) <==> a == b
  {
    hide Distinct, Known, Pairs;
    if Pairs(pool, a) == Pairs(pool, b) { SamePairsSameNums(pool, a, b); }
  }

  lemma {:induction false} FitsByShape(a: seq<Op>, b: seq<Op>, text: string)
    requires SameShape(a, b) && Fits(a, text, [])
    ensures Fits(b, text, [])
  {
    hide LinesTrue;
    if a != [] {
      NothingToKeep(a[0], text);
      assert SameShape(a[1..], b[1..]);
      FitsByShape(a[1..], b[1..], text[a[0].chars..]);
    }
  }

  // The first pair of the wire pool is the second of a local pool that has another already.
  lemma FallsOutOfStep()
    ensures var wire, local := [Pair("bold", "true")], [Pair("italic", "true")];
            var ops := [NumOp(Insert, 1, 0, [0]), NumOp(Insert, 1, 1, [])];
            var (moved, pool) := MovedOps(wire, local, ops);
            && WellRead(wire, ops) && Distinct(local) && WellRead(pool, ops)
            && pool == local + wire && moved == [NumOp(Insert, 1, 0, [1]), NumOp(Insert, 1, 1, [])]
            && !NothingRenumbered(ops, moved)
  {
    var wire, local := [Pair("bold", "true")], [Pair("italic", "true")];
    var ops := [NumOp(Insert, 1, 0, [0]), NumOp(Insert, 1, 1, [])];
    assert wire[0] != local[0];
    assert MovedNums(wire, local, [0]) == ([1] + [], local + wire) by { assert [0][1..] == []; }
    assert [1] + [] == [1];
    assert ops[1..] == [NumOp(Insert, 1, 1, [])] && ops[1..][1..] == [];
    assert MovedOps(wire, local + wire, ops[1..]) == ([NumOp(Insert, 1, 1, [])] + [], local + wire);
    assert MovedOps(wire, local, ops).0 == [NumOp(Insert, 1, 0, [1])] + ([NumOp(Insert, 1, 1, [])] + []);
    OnePair(wire);
    OnePair(local + wire);
  }

  lemma {:induction false} OnePair(pool: seq<Pair>)
    requires pool != [] && pool[0].value != ""
    ensures NumsWellRead(pool, [0]) && NumsWellRead(pool, [])
  {
    var a := Pairs(pool, [0]);
    assert a == [pool[0]] && a[..0] == [] && Pairs(pool, []) == [];
    assert MapOf(a) == MapOf(a[..0])[pool[0].key := pool[0].value] && MapOf([]) == map[];
    assert MapOf(a)[pool[0].key] == pool[0].value;
  }
}
