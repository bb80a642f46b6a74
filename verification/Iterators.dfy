/** Cursors over op streams and char banks. */
module Iterators {
  import opened Changesets

  class StringIterator {
    const str: string
    var curIndex: nat

    ghost predicate Valid()
      reads this
    {
      curIndex <= |str|
    }

    ghost function Rest(): string
      reads this
      requires Valid()
    {
      str[curIndex..]
    }

    constructor (s: string)
      ensures Valid() && Rest() == s
    {
      str := s;
      curIndex := 0;
      new;
      assert s[0..] == s;
    }

    function Remaining(): int
      reads this
      requires Valid()
      ensures Remaining() == |Rest()|
    {
      |str| - curIndex
    }

    method Take(n: int) returns (s: string)
      requires Valid() && 0 <= n <= |Rest()|
      modifies this
      ensures Valid() && s == old(Rest())[..n] && Rest() == old(Rest())[n..]
    {
      s := str[curIndex..curIndex + n];
      curIndex := curIndex + n;
    }

    method Peek(n: int) returns (s: string)
      requires Valid() && 0 <= n <= |Rest()|
      ensures s == Rest()[..n]
    {
      s := str[curIndex..curIndex + n];
    }

    method Skip(n: int)
      requires Valid() && 0 <= n <= |Rest()|
      modifies this
      ensures Valid() && Rest() == old(Rest())[n..]
    {
      curIndex := curIndex + n;
    }
  }

  class OpIterator {
    const ops: seq<Op>
    var curIndex: nat

    ghost predicate Valid()
      reads this
    {
      curIndex <= |ops|
    }

    ghost function Rest(): seq<Op>
      reads this
      requires Valid()
    {
      ops[curIndex..]
    }

    constructor (opsList: seq<Op>)
      ensures Valid() && Rest() == opsList
    {
      ops := opsList;
      curIndex := 0;
      new;
      assert opsList[0..] == opsList;
    }

    predicate HasNext()
      reads this
      requires Valid()
      ensures HasNext() <==> Rest() != []
    {
      curIndex < |ops|
    }

    method Next() returns (op: Op)
      requires Valid() && HasNext()
      modifies this
      ensures Valid() && old(Rest()) == [op] + Rest()
    {
      op := ops[curIndex];
      curIndex := curIndex + 1;
    }
  }
}
