/**
 The engine on attribute numbers: in one pool, composing and following work out the same as
 on the pairs themselves, and leave the pool as it is.
 */
module NumberedEngine {
  import opened Ordering
  import opened Attributes
  import opened AttributeMerging
  import opened Changesets
  import opened Composition
  import opened Following
  import opened NormalForm
  import opened Laws
  import opened Zipping
  import opened Layers
  import opened Pools

  // ---------- lists of pairs that are all in a pool

  ghost predicate In(pool: seq<Pair>, a: seq<Pair>) { forall p :: p in a ==> p in pool }

  ghost predicate AllIn(pool: seq<Pair>, ops: seq<Op>) {
    forall i :: 0 <= i < |ops| ==> In(pool, ops[i].attribs)
  }

  lemma ComposedIn(pool: seq<Pair>, a: Attribs, b: Attribs, mutation: bool)
    requires In(pool, a) && In(pool, b)
    ensures In(pool, ComposeAttributes(a, b, mutation))
  {
    var c := ComposeAttributes(a, b, mutation);
    SortedKeys(a);
    SortedKeys(b);
    SortedKeys(c);
    MapOfHas(a);
    MapOfHas(b);
    MapOfHas(c);
    forall p | p in c ensures p in pool {
      assert Binds(MapOf(c), p);
      assert Binds(MapOf(a), p) || Binds(MapOf(b), p);
    }
  }

  lemma FollowedIn(pool: seq<Pair>, a: Attribs, b: Attribs)
    requires In(pool, b)
    ensures In(pool, FollowAttributes(a, b))
  {
    var c := FollowAttributes(a, b);
    SortedKeys(b);
    SortedKeys(c);
    MapOfHas(b);
    MapOfHas(c);
    forall p | p in c ensures p in pool {
      assert Binds(MapOf(c), p);
      assert Binds(MapOf(b), p);
    }
  }

  lemma SortedKeys(a: Attribs)
    ensures DistinctKeys(a)
  {
    forall i, j | 0 <= i < j < |a| ensures a[i].key != a[j].key { assert Before(a[i], a[j]); }
  }

  lemma InTail(pool: seq<Pair>, ops: seq<Op>)
    requires AllIn(pool, ops) && ops != []
    ensures In(pool, ops[0].attribs) && AllIn(pool, ops[1..])
    ensures forall k: int, l: int :: AllIn(pool, Chop(ops, k, l))
  {
    hide In;
  }

  lemma InPush(pool: seq<Pair>, op: Op, ops: seq<Op>)
    requires In(pool, op.attribs) && AllIn(pool, ops)
    ensures AllIn(pool, [op] + ops)
  {
    hide In;
  }

  lemma NothingIn(pool: seq<Pair>)
    ensures In(pool, [])
  {}

  lemma {:induction false} ComposeRawIn(pool: seq<Pair>, a: seq<Op>, ba: string, b: seq<Op>, bb: string)
    requires AllIn(pool, a) && AllIn(pool, b)
    ensures AllIn(pool, ComposeRaw(a, ba, b, bb).ops)
    decreases |a| + |b|
  {
    hide In, AllIn, ComposeAttributes, Chop, Take, Drop;
    NothingIn(pool);
    EmptyIn(pool);
    if a != [] { InTail(pool, a); }
    if b != [] { InTail(pool, b); }
    if a == [] && b == [] {
    } else if a != [] && a[0].opcode == Delete {
      ComposeRawIn(pool, a[1..], ba, b, bb);
      InPush(pool, a[0], ComposeRaw(a[1..], ba, b, bb).ops);
    } else if b != [] && b[0].opcode == Insert {
      ComposeRawIn(pool, a, ba, b[1..], Drop(bb, b[0].chars));
      InPush(pool, b[0], ComposeRaw(a, ba, b[1..], Drop(bb, b[0].chars)).ops);
    } else if a == [] {
      ComposeRawIn(pool, a, ba, b[1..], bb);
      InPush(pool, b[0], ComposeRaw(a, ba, b[1..], bb).ops);
    } else if b == [] {
      ComposeRawIn(pool, a[1..], Drop(ba, BankUse(a[0])), b, bb);
      InPush(pool, a[0], ComposeRaw(a[1..], Drop(ba, BankUse(a[0])), b, bb).ops);
    } else {
      ComposeRawInBoth(pool, a, ba, b, bb);
    }
  }

  lemma {:induction false} ComposeRawInBoth(pool: seq<Pair>, a: seq<Op>, ba: string, b: seq<Op>, bb: string)
    requires AllIn(pool, a) && AllIn(pool, b) && a != [] && b != [] && a[0].opcode != Delete && b[0].opcode != Insert
    ensures AllIn(pool, ComposeRaw(a, ba, b, bb).ops)
    decreases |a| + |b|, 0
  {
    hide In, AllIn, ComposeAttributes, Take, Drop;
    InTail(pool, a);
    InTail(pool, b);
    NothingIn(pool);
    var byB := b[0].chars <= a[0].chars;
    var k, l := if byB then b[0].chars else a[0].chars, if byB then b[0].lines else a[0].lines;
    var use := if a[0].opcode == Insert then k else 0;
    var a', b' := if byB then Chop(a, k, l) else a[1..], if byB then b[1..] else Chop(b, k, l);
    ComposeRawIn(pool, a', Drop(ba, use), b', bb);
    var rest := ComposeRaw(a', Drop(ba, use), b', bb).ops;
    ComposedIn(pool, a[0].attribs, b[0].attribs, a[0].opcode == Keep);
    InPush(pool, Op(a[0].opcode, k, l, ComposeAttributes(a[0].attribs, b[0].attribs, a[0].opcode == Keep)), rest);
    InPush(pool, Op(Delete, k, l, []), rest);
  }

  lemma EmptyIn(pool: seq<Pair>)
    ensures AllIn(pool, [])
  {}

  lemma {:induction false} FollowRawIn(pool: seq<Pair>, a: seq<Op>, ba: string, b: seq<Op>, bb: string, reverse: bool)
    requires AllIn(pool, a) && AllIn(pool, b)
    ensures AllIn(pool, FollowRaw(a, ba, b, bb, reverse))
    decreases |a| + |b|
  {
    hide In, AllIn, FollowAttributes, Drop, TakesFirst;
    NothingIn(pool);
    EmptyIn(pool);
    if a == [] && b == [] { return; }
    if a != [] { InTail(pool, a); }
    if b != [] { InTail(pool, b); }
    if Inserting(a) || Inserting(b) {
      if a != [] {
        FollowRawIn(pool, a[1..], Drop(ba, a[0].chars), b, bb, reverse);
        InPush(pool, Op(Keep, a[0].chars, a[0].lines, []), FollowRaw(a[1..], Drop(ba, a[0].chars), b, bb, reverse));
      }
      if b != [] {
        FollowRawIn(pool, a, ba, b[1..], Drop(bb, b[0].chars), reverse);
        InPush(pool, b[0], FollowRaw(a, ba, b[1..], Drop(bb, b[0].chars), reverse));
      }
      TakesFirstInserts2(a, ba, b, bb, reverse);
    } else if a == [] {
      FollowRawIn(pool, a, ba, b[1..], bb, reverse);
      InPush(pool, b[0], FollowRaw(a, ba, b[1..], bb, reverse));
    } else if b == [] {
      FollowRawIn(pool, a[1..], ba, b, bb, reverse);
      InPush(pool, a[0], FollowRaw(a[1..], ba, b, bb, reverse));
    } else {
      FollowRawInBoth(pool, a, ba, b, bb, reverse);
    }
  }

  lemma TakesFirstInserts2(a: seq<Op>, ba: string, b: seq<Op>, bb: string, reverse: bool)
    requires Inserting(a) || Inserting(b)
    ensures TakesFirst(a, ba, b, bb, reverse) ==> a != []
    ensures !TakesFirst(a, ba, b, bb, reverse) ==> b != []
  {}

  lemma {:induction false} FollowRawInBoth(pool: seq<Pair>, a: seq<Op>, ba: string, b: seq<Op>, bb: string,
      reverse: bool)
    requires AllIn(pool, a) && AllIn(pool, b) && a != [] && b != [] && !Inserting(a) && !Inserting(b)
    ensures AllIn(pool, FollowRaw(a, ba, b, bb, reverse))
    decreases |a| + |b|, 0
  {
    hide In, AllIn, FollowAttributes, Drop;
    NothingIn(pool);
    InTail(pool, a);
    InTail(pool, b);
    FollowedIn2(pool, a[0].attribs, b[0].attribs);
    var ca, cb := Chop(a, b[0].chars, b[0].lines), Chop(b, a[0].chars, a[0].lines);
    var both := FollowAttributes(a[0].attribs, b[0].attribs);
    if a[0].chars <= b[0].chars {
      FollowRawIn(pool, a[1..], ba, cb, bb, reverse);
      var rest := FollowRaw(a[1..], ba, cb, bb, reverse);
      InPush(pool, Op(Keep, a[0].chars, a[0].lines, both), rest);
      InPush(pool, Part(b[0], a[0].chars, a[0].lines), rest);
    }
    if b[0].chars <= a[0].chars {
      FollowRawIn(pool, ca, ba, b[1..], bb, reverse);
      var rest := FollowRaw(ca, ba, b[1..], bb, reverse);
      InPush(pool, Op(Keep, b[0].chars, b[0].lines, both), rest);
      InPush(pool, b[0], rest);
    }
  }

  lemma FollowedIn2(pool: seq<Pair>, a: Attribs, b: Attribs)
    requires In(pool, a) && In(pool, b)
    ensures In(pool, FollowAttributes(a, b))
  {
    FollowedIn(pool, a, b);
  }

  lemma {:induction false} InsertPastIn(pool: seq<Pair>, p: Op, ops: seq<Op>)
    requires In(pool, p.attribs) && AllIn(pool, ops)
    ensures AllIn(pool, InsertPast(p, ops))
  {
    hide In, AllIn, Join;
    if ops != [] && ops[0].opcode == Delete {
      InTail(pool, ops);
      InsertPastIn(pool, p, ops[1..]);
      InPush(pool, ops[0], InsertPast(p, ops[1..]));
    } else {
      JoinIn(pool, p, ops);
    }
  }

  lemma JoinIn(pool: seq<Pair>, p: Op, ops: seq<Op>)
    requires In(pool, p.attribs) && AllIn(pool, ops)
    ensures AllIn(pool, Join(p, ops))
  {
    hide In, AllIn;
    InPush(pool, p, ops);
    if ops != [] {
      InTail(pool, ops);
      InPush(pool, Merge2(p, ops[0]), ops[1..]);
    }
  }

  lemma {:induction false} NormalIn(pool: seq<Pair>, ops: seq<Op>, trim: bool)
    requires AllIn(pool, ops)
    ensures AllIn(pool, Normal(ops, trim))
  {
    hide In, AllIn, Join, InsertPast;
    EmptyIn(pool);
    if ops != [] {
      InTail(pool, ops);
      NormalIn(pool, ops[1..], trim);
      InsertPastIn(pool, ops[0], Normal(ops[1..], trim));
      JoinIn(pool, ops[0], Normal(ops[1..], trim));
    }
  }

  // ---------- numbers for pairs

  ghost function NumsOf(pool: seq<Pair>, a: seq<Pair>): (r: seq<nat>)
    requires In(pool, a)
    ensures |r| == |a| && forall i :: 0 <= i < |a| ==> r[i] < |pool| && pool[r[i]] == a[i]
  {
    seq(|a|, i requires 0 <= i < |a| => IndexIn(pool, a[i]))
  }

  ghost function Numbered(pool: seq<Pair>, ops: seq<Op>): (r: seq<NumOp>)
    requires AllIn(pool, ops)
    ensures |r| == |ops|
    ensures forall i :: 0 <= i < |ops| ==>
                          r[i] == NumOp(ops[i].opcode, ops[i].chars, ops[i].lines, NumsOf(pool, ops[i].attribs))
  {
    seq(|ops|, i requires 0 <= i < |ops| => NumOp(ops[i].opcode, ops[i].chars, ops[i].lines,
        NumsOf(pool, ops[i].attribs)))
  }

  // There is one way to write the ops with numbers of the pool.
  lemma NumberedReads(pool: seq<Pair>, ops: seq<Op>)
    requires AllIn(pool, ops) && Distinct(pool)
    ensures Readable(pool, Numbered(pool, ops)) && Read(pool, Numbered(pool, ops)) == ops
    ensures forall r: seq<NumOp> :: Readable(pool, r) && Read(pool, r) == ops ==> r == Numbered(pool, ops)
  {
    hide In, Distinct;
    var n := Numbered(pool, ops);
    forall i | 0 <= i < |n| ensures Known(pool, n[i].nums) && Pairs(pool, n[i].nums) == ops[i].attribs {}
    forall r: seq<NumOp> | Readable(pool, r) && Read(pool, r) == ops ensures r == n {
      forall i | 0 <= i < |r| ensures r[i] == n[i] {
        assert Read(pool, r)[i] == ops[i] == Read1(pool, r[i]);
        SamePairsSameNums(pool, r[i].nums, n[i].nums);
      }
    }
  }

  lemma ReadIsIn(pool: seq<Pair>, ops: seq<NumOp>)
    requires Readable(pool, ops)
    ensures AllIn(pool, Read(pool, ops))
  {
    hide Sorted;
    forall i | 0 <= i < |ops| ensures In(pool, Read(pool, ops)[i].attribs) { assert Known(pool, ops[i].nums); }
  }

  // ---------- the two operations

  datatype NumChangeset = NumChangeset(oldLen: int, newLen: int, ops: seq<NumOp>, bank: string)

  ghost predicate Reads(pool: seq<Pair>, c: NumChangeset, r: Changeset) {
    Readable(pool, c.ops) && r == Changeset(c.oldLen, c.newLen, Read(pool, c.ops), c.bank)
  }

  // What composing and following give has just one writing in the numbers of the pool that the
  // two changesets have theirs from: no number has to be added.
  lemma EngineStaysInPool(pool: seq<Pair>, c: NumChangeset, d: NumChangeset, a: Changeset, b: Changeset, reverse: bool)
    requires Distinct(pool) && Reads(pool, c, a) && Reads(pool, d, b)
    ensures AllIn(pool, Compose(a, b).ops) && AllIn(pool, Follow(a, b, reverse).ops)
    ensures forall e: NumChangeset :: Reads(pool, e, Compose(a, b))
                   <==> e == NumChangeset(c.oldLen, d.newLen, Numbered(pool, Compose(a, b).ops), Compose(a, b).bank)
    ensures forall e: NumChangeset :: Reads(pool, e, Follow(a, b, reverse))
                   <==> e == NumChangeset(c.newLen, Follow(a, b, reverse).newLen,
                       Numbered(pool, Follow(a, b, reverse).ops), d.bank)
  {
    hide In, AllIn, Distinct, ComposeRaw, FollowRaw, Normal, Readable, Numbered, LengthChange;
    ReadIsIn(pool, c.ops);
    ReadIsIn(pool, d.ops);
    var x, y := ComposeRaw(a.ops, a.bank, b.ops, b.bank).ops, FollowRaw(a.ops, a.bank, b.ops, b.bank, reverse);
    ComposeRawIn(pool, a.ops, a.bank, b.ops, b.bank);
    FollowRawIn(pool, a.ops, a.bank, b.ops, b.bank, reverse);
    NormalIn(pool, x, true);
    NormalIn(pool, y, true);
    NumberedReads(pool, Normal(x, true));
    NumberedReads(pool, Normal(y, true));
  }

  // ---------- the attributes of one op, looked up and put back

  method LookUp(nums: seq<nat>, pool: AttribPool) returns (pairs: seq<Pair>)
    requires pool.Valid() && Known(pool.Contents(), nums)
    ensures pairs == Pairs(pool.Contents(), nums)
  {
    hide AttribPool.Valid, AttribPool.Contents;
    pairs := [];
    for i := 0 to |nums|
      invariant pairs == Pairs(pool.Contents(), nums)[..i]
    {
      var pair := pool.GetAttrib(nums[i]);
      pairs := pairs + [pair.value];
    }
  }

  method PutBack(pairs: seq<Pair>, pool: AttribPool) returns (nums: seq<nat>)
    requires pool.Valid() && In(pool.Contents(), pairs)
    modifies pool
    ensures pool.Valid() && pool.Contents() == old(pool.Contents()) && nums == NumsOf(pool.Contents(), pairs)
  {
    hide AttribPool.Valid, AttribPool.Contents;
    nums := [];
    for i := 0 to |pairs|
      invariant pool.Valid() && pool.Contents() == old(pool.Contents()) && nums == NumsOf(pool.Contents(), pairs)[..i]
    {
      assert pairs[i] in pool.Contents();
      var num := pool.PutAttrib(pairs[i], false);
      nums := nums + [num];
    }
  }

  method ComposeNums(att1: seq<nat>, att2: seq<nat>, resultIsMutation: bool, pool: AttribPool) returns (r: seq<nat>)
    requires pool.Valid() && Known(pool.Contents(), att1) && Known(pool.Contents(), att2)
    requires Sorted(Pairs(pool.Contents(), att1)) && Sorted(Pairs(pool.Contents(), att2))
    modifies pool
    ensures pool.Valid() && pool.Contents() == old(pool.Contents()) && Known(pool.Contents(), r)
    ensures Pairs(pool.Contents(), r)
         == ComposeAttributes(Pairs(pool.Contents(), att1), Pairs(pool.Contents(), att2), resultIsMutation)
  {
    hide AttribPool.Valid, AttribPool.Contents, ComposeAttributes, Sorted, In;
    ghost var p := pool.Contents();
    ComposeUnits(Pairs(p, att1), resultIsMutation);
    ComposeUnits(Pairs(p, att2), resultIsMutation);
    if att1 == [] && resultIsMutation {
      assert Pairs(p, att1) == [];
      return att2;
    }
    if att2 == [] {
      assert Pairs(p, att2) == [];
      return att1;
    }
    var atts1 := LookUp(att1, pool);
    var atts2 := LookUp(att2, pool);
    PairsIn(p, att1);
    PairsIn(p, att2);
    ComposedIn(p, atts1, atts2, resultIsMutation);
    var atts := MergeCompose(atts1, atts2, resultIsMutation);
    r := PutBack(atts, pool);
    assert Pairs(p, r) == atts;
  }

  method FollowNums(att1: seq<nat>, att2: seq<nat>, pool: AttribPool) returns (r: seq<nat>)
    requires pool.Valid() && Known(pool.Contents(), att1) && Known(pool.Contents(), att2)
    requires Sorted(Pairs(pool.Contents(), att1)) && Sorted(Pairs(pool.Contents(), att2))
    modifies pool
    ensures pool.Valid() && pool.Contents() == old(pool.Contents()) && Known(pool.Contents(), r)
    ensures Pairs(pool.Contents(), r) == FollowAttributes(Pairs(pool.Contents(), att1), Pairs(pool.Contents(), att2))
  {
    hide AttribPool.Valid, AttribPool.Contents, FollowAttributes, Sorted, In;
    ghost var p := pool.Contents();
    FollowUnits(Pairs(p, att1));
    FollowUnits(Pairs(p, att2));
    if att2 == [] {
      assert Pairs(p, att2) == [];
      return [];
    }
    if att1 == [] {
      assert Pairs(p, att1) == [];
      return att2;
    }
    var atts1 := LookUp(att1, pool);
    var atts2 := LookUp(att2, pool);
    PairsIn(p, att2);
    FollowedIn(p, atts1, atts2);
    var atts := MergeFollow(atts1, atts2);
    r := PutBack(atts, pool);
    assert Pairs(p, r) == atts;
  }

  lemma PairsIn(pool: seq<Pair>, nums: seq<nat>)
    requires Known(pool, nums)
    ensures In(pool, Pairs(pool, nums))
  {}

  // ---------- whole changesets, looked up and put back

  // What a changeset says in a pool.
  ghost function Meaning(pool: seq<Pair>, c: NumChangeset): Changeset
    requires Readable(pool, c.ops)
  {
    Changeset(c.oldLen, c.newLen, Read(pool, c.ops), c.bank)
  }

  method LookUpOps(ops: seq<NumOp>, pool: AttribPool) returns (r: seq<Op>)
    requires pool.Valid() && Readable(pool.Contents(), ops)
    ensures r == Read(pool.Contents(), ops)
  {
    hide AttribPool.Valid, AttribPool.Contents;
    r := [];
    for i := 0 to |ops|
      invariant r == Read(pool.Contents(), ops)[..i]
    {
      var pairs := LookUp(ops[i].nums, pool);
      r := r + [Op(ops[i].opcode, ops[i].chars, ops[i].lines, pairs)];
    }
  }

  // In a pool with more pairs they are still the same.
  lemma ReadLater(pool: seq<Pair>, pool': seq<Pair>, ops: seq<NumOp>)
    requires Readable(pool, ops) && pool <= pool'
    ensures Readable(pool', ops) && Read(pool', ops) == Read(pool, ops)
  {
    hide Sorted;
    forall i | 0 <= i < |ops|
      ensures Known(pool', ops[i].nums) && Pairs(pool', ops[i].nums) == Pairs(pool, ops[i].nums)
    {
      PairsGrow(pool, pool', ops[i].nums);
    }
  }

  // Pairs that are not in the pool yet are filed there.
  method FilePairs(pairs: seq<Pair>, pool: AttribPool) returns (nums: seq<nat>)
    requires pool.Valid()
    modifies pool
    ensures pool.Valid() && old(pool.Contents()) <= pool.Contents()
    ensures In(old(pool.Contents()), pairs) ==> pool.Contents() == old(pool.Contents())
    ensures Known(pool.Contents(), nums) && Pairs(pool.Contents(), nums) == pairs
  {
    hide AttribPool.Valid, AttribPool.Contents, Distinct;
    nums := [];
    for i := 0 to |pairs|
      invariant pool.Valid() && old(pool.Contents()) <= pool.Contents()
      invariant In(old(pool.Contents()), pairs) ==> pool.Contents() == old(pool.Contents())
      invariant Known(pool.Contents(), nums) && Pairs(pool.Contents(), nums) == pairs[..i]
    {
      ghost var p := pool.Contents();
      pool.PairsAreDistinct();
      PutKeeps(p, pairs[i]);
      assert pairs[i] in pairs;
      var num := pool.PutAttrib(pairs[i], false);
      PairsGrow(p, pool.Contents(), nums);
      nums := nums + [num];
    }
  }

  method FileOps(ops: seq<Op>, pool: AttribPool) returns (r: seq<NumOp>)
    requires pool.Valid()
    modifies pool
    ensures pool.Valid() && old(pool.Contents()) <= pool.Contents()
    ensures AllIn(old(pool.Contents()), ops) ==> pool.Contents() == old(pool.Contents())
    ensures Readable(pool.Contents(), r) && Read(pool.Contents(), r) == ops
  {
    hide AttribPool.Valid, AttribPool.Contents, Readable, Sorted, In;
    r := [];
    NothingToRead(pool.Contents());
    for i := 0 to |ops|
      invariant pool.Valid() && old(pool.Contents()) <= pool.Contents()
      invariant AllIn(old(pool.Contents()), ops) ==> pool.Contents() == old(pool.Contents())
      invariant Readable(pool.Contents(), r) && Read(pool.Contents(), r) == ops[..i]
    {
      ghost var p := pool.Contents();
      var nums := FilePairs(ops[i].attribs, pool);
      ReadLater(p, pool.Contents(), r);
      ReadOneMore(pool.Contents(), r, NumOp(ops[i].opcode, ops[i].chars, ops[i].lines, nums), ops[i]);
      r := r + [NumOp(ops[i].opcode, ops[i].chars, ops[i].lines, nums)];
    }
  }

  lemma NothingToRead(pool: seq<Pair>)
    ensures Readable(pool, []) && Read(pool, []) == []
  {}

  lemma ReadOneMore(pool: seq<Pair>, ops: seq<NumOp>, op: NumOp, read: Op)
    requires Readable(pool, ops) && Known(pool, op.nums) && Pairs(pool, op.nums) == read.attribs
    requires read == Op(op.opcode, op.chars, op.lines, read.attribs)
    ensures Readable(pool, ops + [op]) && Read(pool, ops + [op]) == Read(pool, ops) + [read]
  {
    hide Sorted;
    forall i | 0 <= i < |ops + [op]| ensures Known(pool, (ops + [op])[i].nums)
                                             && Sorted(Pairs(pool, (ops + [op])[i].nums)) {
      if i < |ops| { assert (ops + [op])[i] == ops[i]; }
    }
  }
}
