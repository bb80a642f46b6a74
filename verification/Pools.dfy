/** The attribute pool: numbers for (key, value) pairs, and moving ops from one pool to another. */
module Pools {
  import opened Ordering
  import opened Attributes
  import opened Changesets
  import opened Layers
  import opened Zipping

  // ---------- pools as sequences: the pair at index n has number n

  ghost predicate Distinct(pool: seq<Pair>) {
    forall i, j :: 0 <= i < j < |pool| ==> pool[i] != pool[j]
  }

  function IndexIn(pool: seq<Pair>, p: Pair): (i: nat)
    requires p in pool
    ensures i < |pool| && pool[i] == p
  {
    if pool[0] == p then 0 else 1 + IndexIn(pool[1..], p)
  }

  lemma {:induction false} IndexIsOnly(pool: seq<Pair>, i: nat)
    requires Distinct(pool) && i < |pool|
    ensures IndexIn(pool, pool[i]) == i
  {
    var j := IndexIn(pool, pool[i]);
    assert pool[j] == pool[i];
  }

  // The number of a pair, and the pool with it.
  function Put(pool: seq<Pair>, p: Pair): (nat, seq<Pair>) {
    if p in pool then (IndexIn(pool, p), pool) else (|pool|, pool + [p])
  }

  lemma PutKeeps(pool: seq<Pair>, p: Pair)
    requires Distinct(pool)
    ensures var (n, pool') := Put(pool, p); Distinct(pool') && pool <= pool' && n < |pool'| && pool'[n] == p
  {}

  // ---------- the pool object

  datatype PoolData = PoolData(numToAttrib: map<nat, Pair>, nextNum: nat)

  class AttribPool {
    var numToAttrib: map<nat, Pair>
    var attribToNum: map<string, nat>
    var nextNum: nat

    // Numbers below nextNum and pairs correspond one to one, both ways.
    ghost predicate Valid()
      reads this
    {
      && (forall n: nat :: n in numToAttrib <==> n < nextNum)
      && (forall n: nat :: n < nextNum ==>
            PairText(numToAttrib[n]) in attribToNum && attribToNum[PairText(numToAttrib[n])] == n)
      && (forall s :: s in attribToNum ==> attribToNum[s] < nextNum && PairText(numToAttrib[attribToNum[s]]) == s)
    }

    ghost function Contents(): (r: seq<Pair>)
      reads this
      requires Valid()
      ensures |r| == nextNum && forall n: nat :: n < nextNum ==> r[n] == numToAttrib[n]
    {
      var pairs := numToAttrib;
      seq(nextNum, n requires n in pairs => pairs[n])
    }

    constructor ()
      ensures Valid() && Contents() == []
    {
      numToAttrib, attribToNum, nextNum := map[], map[], 0;
    }

    lemma PairsAreDistinct()
      requires Valid()
      ensures Distinct(Contents())
    {
      forall i, j | 0 <= i < j < nextNum ensures Contents()[i] != Contents()[j] {
        assert attribToNum[PairText(numToAttrib[i])] == i && attribToNum[PairText(numToAttrib[j])] == j;
      }
    }

    lemma KnownText(attrib: Pair)
      requires Valid()
      ensures PairText(attrib) in attribToNum <==> attrib in Contents()
      ensures attrib in Contents() ==> Contents()[attribToNum[PairText(attrib)]] == attrib
    {
      if PairText(attrib) in attribToNum {
        var n := attribToNum[PairText(attrib)];
        PairTextInjective(numToAttrib[n], attrib);
        assert Contents()[n] == attrib;
      }
      if attrib in Contents() {
        var n :| 0 <= n < nextNum && Contents()[n] == attrib;
        assert numToAttrib[n] == attrib;
      }
    }

    method PutAttrib(attrib: Pair, dontAddIfAbsent: bool) returns (num: int)
      requires Valid()
      modifies this
      ensures Valid()
      ensures dontAddIfAbsent ==>
                Contents() == old(Contents()) && num == if attrib in old(Contents())
                    then Put(old(Contents()), attrib).0 else -1
      ensures !dontAddIfAbsent ==> (num, Contents()) == Put(old(Contents()), attrib)
    {
      hide Valid, Contents, PairText;
      var str := PairText(attrib);
      KnownText(attrib);
      PairsAreDistinct();
      NextIsLength();
      if str in attribToNum {
        IndexIsOnly(Contents(), attribToNum[str]);
        return attribToNum[str];
      }
      if dontAddIfAbsent {
        return -1;
      }
      num := AddAttrib(attrib, str);
    }

    lemma NextIsLength()
      requires Valid()
      ensures |Contents()| == nextNum && forall s :: s in attribToNum ==> attribToNum[s] < nextNum
    {}

    method AddAttrib(attrib: Pair, str: string) returns (num: nat)
      requires Valid() && str == PairText(attrib) && str !in attribToNum
      modifies this
      ensures Valid() && Contents() == old(Contents()) + [attrib] && num == old(nextNum)
    {
      hide PairText;
      ghost var before := Contents();
      num := nextNum;
      nextNum := nextNum + 1;
      attribToNum := attribToNum[str := num];
      numToAttrib := numToAttrib[num := attrib];
      assert Contents() == before + [attrib];
    }

    method GetAttrib(num: nat) returns (pair: Option<Pair>)
      requires Valid()
      ensures pair == if num < |Contents()| then Some(Contents()[num]) else None
    {
      pair := if num in numToAttrib then Some(numToAttrib[num]) else None;
    }

    method ToJsonable() returns (data: PoolData)
      requires Valid()
      ensures data == PoolData(numToAttrib, nextNum)
    {
      data := PoolData(numToAttrib, nextNum);
    }

    // Reading back what was written gives the same pool, the reverse table rebuilt.
    method FromJsonable(data: PoolData, ghost pool: seq<Pair>)
      requires Distinct(pool) && data.nextNum == |pool|
      requires (forall n: nat :: n in data.numToAttrib <==> n < |pool|)
      requires forall n: nat :: n < |pool| ==> data.numToAttrib[n] == pool[n]
      modifies this
      ensures Valid() && Contents() == pool
    {
      hide PairText;
      numToAttrib := data.numToAttrib;
      nextNum := data.nextNum;
      attribToNum := map[];
      var n: nat := 0;
      while n < nextNum
        invariant n <= nextNum == |pool| && numToAttrib == data.numToAttrib
        invariant Tabled(pool, attribToNum, n)
      {
        TabledNext(pool, attribToNum, n);
        attribToNum := attribToNum[PairText(numToAttrib[n]) := n];
        n := n + 1;
      }
    }
  }

  // The numbers below `n`, by the text of their pairs.
  ghost predicate Tabled(pool: seq<Pair>, table: map<string, nat>, n: nat) {
    && n <= |pool|
    && (forall i: nat :: i < n ==> PairText(pool[i]) in table && table[PairText(pool[i])] == i)
    && (forall s :: s in table ==> table[s] < n && PairText(pool[table[s]]) == s)
  }

  lemma TabledNext(pool: seq<Pair>, table: map<string, nat>, n: nat)
    requires Distinct(pool) && Tabled(pool, table, n) && n < |pool|
    ensures Tabled(pool, table[PairText(pool[n]) := n], n + 1)
  {
    hide PairText;
    forall i: nat | i < n ensures PairText(pool[i]) != PairText(pool[n]) {
      if PairText(pool[i]) == PairText(pool[n]) { PairTextInjective(pool[i], pool[n]); }
    }
  }

  // ---------- ops that carry numbers

  datatype NumOp = NumOp(opcode: Opcode, chars: int, lines: int, nums: seq<nat>)

  predicate Known(pool: seq<Pair>, nums: seq<nat>) {
    forall i :: 0 <= i < |nums| ==> nums[i] < |pool|
  }

  function Pairs(pool: seq<Pair>, nums: seq<nat>): (r: seq<Pair>)
    requires Known(pool, nums)
    ensures |r| == |nums| && forall i :: 0 <= i < |nums| ==> r[i] == pool[nums[i]]
  {
    seq(|nums|, i requires 0 <= i < |nums| => pool[nums[i]])
  }

  // The ops mean something in this pool.
  ghost predicate Readable(pool: seq<Pair>, ops: seq<NumOp>) {
    forall i :: 0 <= i < |ops| ==> Known(pool, ops[i].nums) && Sorted(Pairs(pool, ops[i].nums))
  }

  function Read1(pool: seq<Pair>, op: NumOp): Op
    requires Known(pool, op.nums) && Sorted(Pairs(pool, op.nums))
  {
    Op(op.opcode, op.chars, op.lines, Pairs(pool, op.nums))
  }

  function Read(pool: seq<Pair>, ops: seq<NumOp>): (r: seq<Op>)
    requires Readable(pool, ops)
    ensures |r| == |ops| && forall i :: 0 <= i < |ops| ==> r[i] == Read1(pool, ops[i])
  {
    seq(|ops|, i requires 0 <= i < |ops| => Read1(pool, ops[i]))
  }

  // ---------- moving

  function MovedNums(old_: seq<Pair>, new_: seq<Pair>, nums: seq<nat>): (seq<nat>, seq<Pair>)
    requires forall i :: 0 <= i < |nums| ==> nums[i] < |old_|
    decreases |nums|
  {
    if nums == [] then ([], new_)
    else
      var (n, pool) := Put(new_, old_[nums[0]]);
      var (rest, pool') := MovedNums(old_, pool, nums[1..]);
      ([n] + rest, pool')
  }

  function MovedOps(old_: seq<Pair>, new_: seq<Pair>, ops: seq<NumOp>): (seq<NumOp>, seq<Pair>)
    requires forall i :: 0 <= i < |ops| ==> forall k :: 0 <= k < |ops[i].nums| ==> ops[i].nums[k] < |old_|
    decreases |ops|
  {
    if ops == [] then ([], new_)
    else
      var (nums, pool) := MovedNums(old_, new_, ops[0].nums);
      var (rest, pool') := MovedOps(old_, pool, ops[1..]);
      ([ops[0].(nums := nums)] + rest, pool')
  }

  // Moving keeps the pairs, and only ever adds to the new pool.
  lemma {:induction false} MovedNumsMean(old_: seq<Pair>, new_: seq<Pair>, nums: seq<nat>)
    requires Known(old_, nums) && Distinct(new_)
    ensures var (nums', pool) := MovedNums(old_, new_, nums);
            && Distinct(pool) && new_ <= pool && Known(pool, nums') && Pairs(pool, nums') == Pairs(old_, nums)
    decreases |nums|
  {
    if nums != [] {
      PutKeeps(new_, old_[nums[0]]);
      MovedNumsMean(old_, Put(new_, old_[nums[0]]).1, nums[1..]);
    }
  }

  lemma PairsGrow(pool: seq<Pair>, pool': seq<Pair>, nums: seq<nat>)
    requires Known(pool, nums) && pool <= pool'
    ensures Known(pool', nums) && Pairs(pool', nums) == Pairs(pool, nums)
  {}

  ghost predicate AllKnown(pool: seq<Pair>, ops: seq<NumOp>) {
    forall i :: 0 <= i < |ops| ==> Known(pool, ops[i].nums)
  }

  // Two lists of ops say the same, each in its own pool.
  ghost predicate SameMeaning(pool: seq<Pair>, ops: seq<NumOp>, pool': seq<Pair>, ops': seq<NumOp>) {
    && |ops'| == |ops| && AllKnown(pool, ops) && AllKnown(pool', ops')
    && forall i :: 0 <= i < |ops| ==> SameOp(pool, ops[i], pool', ops'[i])
  }

  ghost predicate SameOp(pool: seq<Pair>, op: NumOp, pool': seq<Pair>, op': NumOp) {
    && Known(pool, op.nums) && Known(pool', op'.nums)
    && op'.opcode == op.opcode && op'.chars == op.chars && op'.lines == op.lines
    && Pairs(pool', op'.nums) == Pairs(pool, op.nums)
  }

  // `moveOpsToNewPool` changes no resolved pair and renumbers no existing entry.
  lemma {:induction false} MovedOpsMean(old_: seq<Pair>, new_: seq<Pair>, ops: seq<NumOp>)
    requires AllKnown(old_, ops) && Distinct(new_)
    ensures var (ops', pool) := MovedOps(old_, new_, ops);
            Distinct(pool) && new_ <= pool && SameMeaning(old_, ops, pool, ops')
    decreases |ops|
  {
    hide MovedNums, Pairs;
    if ops != [] {
      MovedNumsMean(old_, new_, ops[0].nums);
      var (nums, pool) := MovedNums(old_, new_, ops[0].nums);
      MovedOpsMean(old_, pool, ops[1..]);
      var (rest, pool') := MovedOps(old_, pool, ops[1..]);
      PairsGrow(pool, pool', nums);
      var op' := ops[0].(nums := nums);
      assert SameOp(old_, ops[0], pool', op');
      forall i | 0 <= i < |ops| ensures SameOp(old_, ops[i], pool', ([op'] + rest)[i]) {
        if i > 0 { assert ops[1..][i - 1] == ops[i] && rest[i - 1] == ([op'] + rest)[i]; }
      }
      assert AllKnown(pool', [op'] + rest) by {
        forall i | 0 <= i < |ops| ensures Known(pool', ([op'] + rest)[i].nums) {
          assert SameOp(old_, ops[i], pool', ([op'] + rest)[i]);
        }
      }
    }
  }

  // So what ops mean to the engine is the same in every pool they are moved to.
  lemma MovingKeepsMeaning(old_: seq<Pair>, new_: seq<Pair>, ops: seq<NumOp>)
    requires Readable(old_, ops) && Distinct(new_)
    ensures var (ops', pool) := MovedOps(old_, new_, ops); Readable(pool, ops') && Read(pool, ops') == Read(old_, ops)
  {
    hide MovedOps;
    MovedOpsMean(old_, new_, ops);
    var (ops', pool) := MovedOps(old_, new_, ops);
    forall i | 0 <= i < |ops|
      ensures Known(pool, ops'[i].nums) && Sorted(Pairs(pool, ops'[i].nums))
          && Read1(pool, ops'[i]) == Read1(old_, ops[i])
    {
      assert SameOp(old_, ops[i], pool, ops'[i]);
    }
  }

  // ---------- numbered by first use

  lemma {:induction false} MovedTwice(old_: seq<Pair>, new_: seq<Pair>, nums: seq<nat>, all: seq<Pair>)
    requires Known(old_, nums) && Distinct(new_) && MovedNums(old_, new_, nums).1 <= all
    ensures var (nums', pool) := MovedNums(old_, new_, nums);
            Known(all, nums') && MovedNums(all, new_, nums') == (nums', pool)
    decreases |nums|
  {
    if nums != [] {
      var p := old_[nums[0]];
      var (n, pool) := Put(new_, p);
      PutKeeps(new_, p);
      MovedNumsMean(old_, pool, nums[1..]);
      MovedTwice(old_, pool, nums[1..], all);
      var (rest, pool') := MovedNums(old_, pool, nums[1..]);
      assert all[n] == pool[n] == p;
      assert ([n] + rest)[1..] == rest;
      assert Known(all, [n] + rest) by { forall i | 0 <= i < |[n]
          + rest| ensures ([n] + rest)[i] < |all| { if i > 0 { assert rest[i - 1] < |all|; } } }
    }
  }

  lemma {:induction false} MovedOpsTwice(old_: seq<Pair>, new_: seq<Pair>, ops: seq<NumOp>, all: seq<Pair>)
    requires AllKnown(old_, ops) && Distinct(new_) && MovedOps(old_, new_, ops).1 <= all
    ensures var (ops', pool) := MovedOps(old_, new_, ops);
            AllKnown(all, ops') && MovedOps(all, new_, ops') == (ops', pool)
    decreases |ops|
  {
    hide MovedNums;
    if ops == [] {
    } else {
      var (nums, pool) := MovedNums(old_, new_, ops[0].nums);
      MovedNumsMean(old_, new_, ops[0].nums);
      MovedOpsMean(old_, pool, ops[1..]);
      MovedTwice(old_, new_, ops[0].nums, all);
      MovedOpsTwice(old_, pool, ops[1..], all);
      var (rest, pool') := MovedOps(old_, pool, ops[1..]);
      var op' := ops[0].(nums := nums);
      assert ([op'] + rest)[1..] == rest;
      assert AllKnown(all, [op'] + rest) by {
        forall i | 0 <= i < |[op'] + rest| ensures Known(all, ([op'] + rest)[i].nums) {
          if i > 0 { assert Known(all, rest[i - 1].nums); }
        }
      }
    }
  }

  // What `prepareForWire` makes, moved into an empty pool, is unchanged, and so is its pool.
  lemma WireFormIsStable(pool: seq<Pair>, ops: seq<NumOp>)
    requires AllKnown(pool, ops)
    ensures var (ops', wire) := MovedOps(pool, [], ops);
            AllKnown(wire, ops') && MovedOps(wire, [], ops') == (ops', wire)
  {
    MovedOpsTwice(pool, [], ops, MovedOps(pool, [], ops).1);
  }

  // Ops read in the pool they were moved to, but by their old numbers, mean what they meant
  // exactly if moving them changed no number.
  lemma ReadUntranslated(wire: seq<Pair>, local: seq<Pair>, ops: seq<NumOp>)
    requires AllKnown(wire, ops) && Distinct(local)
    ensures var (ops', pool) := MovedOps(wire, local, ops); SameMeaning(wire, ops, pool, ops) <==> ops' == ops
  {
    hide MovedOps, Pairs;
    MovedOpsMean(wire, local, ops);
    var (ops', pool) := MovedOps(wire, local, ops);
    if SameMeaning(wire, ops, pool, ops) {
      forall i | 0 <= i < |ops| ensures ops'[i] == ops[i] {
        assert SameOp(wire, ops[i], pool, ops[i]) && SameOp(wire, ops[i], pool, ops'[i]);
        SamePairsSameNums(pool, ops[i].nums, ops'[i].nums);
      }
    }
  }

  lemma SamePairsSameNums(pool: seq<Pair>, a: seq<nat>, b: seq<nat>)
    requires Distinct(pool) && Known(pool, a) && Known(pool, b) && Pairs(pool, a) == Pairs(pool, b)
    ensures a == b
  {
    assert |a| == |b|;
    forall i | 0 <= i < |a| ensures a[i] == b[i] {
      assert Pairs(pool, a)[i] == Pairs(pool, b)[i];
      assert pool[a[i]] == pool[b[i]];
    }
  }

  // A client that opens a pad with an empty pool reads what it is sent as it was meant.
  lemma FreshClientReadsRight(pool: seq<Pair>, ops: seq<NumOp>)
    requires AllKnown(pool, ops)
    ensures var (sent, wire) := MovedOps(pool, [], ops);
            && AllKnown(wire, sent)
            && var (moved, local) := MovedOps(wire, [], sent); moved == sent && SameMeaning(wire, sent, local, sent)
  {
    hide MovedOps;
    WireFormIsStable(pool, ops);
    var (sent, wire) := MovedOps(pool, [], ops);
    ReadUntranslated(wire, [], sent);
  }

  // ---------- the loops

  method MoveNums(nums: seq<nat>, oldPool: AttribPool, newPool: AttribPool) returns (moved: seq<nat>)
    requires oldPool != newPool && oldPool.Valid() && newPool.Valid() && Known(oldPool.Contents(), nums)
    modifies newPool
    ensures oldPool.Valid() && newPool.Valid() && oldPool.Contents() == old(oldPool.Contents())
    ensures (moved, newPool.Contents()) == MovedNums(old(oldPool.Contents()), old(newPool.Contents()), nums)
  {
    hide AttribPool.Valid, AttribPool.Contents, Put, Distinct;
    moved := [];
    ghost var all := MovedNums(oldPool.Contents(), newPool.Contents(), nums);
    assert nums[0..] == nums && [] + all.0 == all.0;
    for i := 0 to |nums|
      invariant oldPool.Valid() && newPool.Valid() && oldPool.Contents() == old(oldPool.Contents())
      invariant all == (moved + MovedNums(oldPool.Contents(), newPool.Contents(), nums[i..]).0,
                        MovedNums(oldPool.Contents(), newPool.Contents(), nums[i..]).1)
    {
      assert nums[i..][0] == nums[i] && nums[i..][1..] == nums[i + 1..];
      var pair := oldPool.GetAttrib(nums[i]);
      ghost var was := moved;
      var newNum := newPool.PutAttrib(pair.value, false);
      moved := moved + [newNum];
      Regroup(was, [newNum], MovedNums(oldPool.Contents(), newPool.Contents(), nums[i + 1..]).0);
    }
    assert moved + [] == moved;
  }

  method MoveOpsToNewPool(ops: seq<NumOp>, oldPool: AttribPool, newPool: AttribPool) returns (moved: seq<NumOp>)
    requires oldPool != newPool && oldPool.Valid() && newPool.Valid() && AllKnown(oldPool.Contents(), ops)
    modifies newPool
    ensures oldPool.Valid() && newPool.Valid() && oldPool.Contents() == old(oldPool.Contents())
    ensures (moved, newPool.Contents()) == MovedOps(old(oldPool.Contents()), old(newPool.Contents()), ops)
  {
    hide AttribPool.Valid, AttribPool.Contents, MovedNums, Distinct;
    moved := [];
    ghost var all := MovedOps(oldPool.Contents(), newPool.Contents(), ops);
    assert ops[0..] == ops && [] + all.0 == all.0;
    for i := 0 to |ops|
      invariant oldPool.Valid() && newPool.Valid() && oldPool.Contents() == old(oldPool.Contents())
      invariant all == (moved + MovedOps(oldPool.Contents(), newPool.Contents(), ops[i..]).0,
                        MovedOps(oldPool.Contents(), newPool.Contents(), ops[i..]).1)
    {
      assert ops[i..][0] == ops[i] && ops[i..][1..] == ops[i + 1..];
      ghost var was := moved;
      var nums := MoveNums(ops[i].nums, oldPool, newPool);
      var op := ops[i].(nums := nums);
      moved := moved + [op];
      Regroup(was, [op], MovedOps(oldPool.Contents(), newPool.Contents(), ops[i + 1..]).0);
    }
    assert moved + [] == moved;
  }

  method PrepareForWire(ops: seq<NumOp>, pool: AttribPool) returns (translated: seq<NumOp>, newPool: AttribPool)
    requires pool.Valid() && AllKnown(pool.Contents(), ops)
    ensures pool.Valid() && newPool.Valid() && fresh(newPool) && pool.Contents() == old(pool.Contents())
    ensures (translated, newPool.Contents()) == MovedOps(pool.Contents(), [], ops)
  {
    newPool := new AttribPool();
    translated := MoveOpsToNewPool(ops, pool, newPool);
  }
}
