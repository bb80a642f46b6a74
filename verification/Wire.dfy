/** Changesets as strings: the printers and the parsers. */
module Wire {
  import opened Attributes
  import opened Changesets
  import opened LineMutation
  import opened Pools
  import opened Zipping

  // ---------- numbers in base 36

  predicate IsDigit(c: char) { '0' <= c <= '9' || 'a' <= c <= 'z' }

  function Value(c: char): nat
    requires IsDigit(c)
  {
    if c <= '9' then (c as int - '0' as int) else c as int - 'a' as int + 10
  }

  function Digit(n: nat): (c: char)
    requires n < 36
    ensures IsDigit(c) && Value(c) == n
  {
    if n < 10 then ('0' as int + n) as char else ('a' as int + n - 10) as char
  }

  predicate AllDigits(s: string) { forall i :: 0 <= i < |s| ==> IsDigit(s[i]) }

  function NumToString(n: nat): (s: string)
    ensures s != [] && AllDigits(s)
  {
    if n < 36 then [Digit(n)] else NumToString(n / 36) + [Digit(n % 36)]
  }

  function ParseNum(s: string): nat
    requires AllDigits(s)
  {
    if s == [] then 0 else ParseNum(s[..|s| - 1]) * 36 + Value(s[|s| - 1])
  }

  lemma {:induction false} ParsePrinted(n: nat)
    ensures ParseNum(NumToString(n)) == n
  {
    if n < 36 {
      assert [Digit(n)][..0] == [];
    } else {
      ParsePrinted(n / 36);
      var s := NumToString(n / 36);
      assert (s + [Digit(n % 36)])[..|s|] == s;
    }
  }

  // ---------- one op

  // The digits that `s` starts with: `[0-9a-z]+`, or nothing.
  function Digits(s: string): (r: string)
    ensures r <= s && AllDigits(r) && (r == s || !IsDigit(s[|r|]))
  {
    if s != [] && IsDigit(s[0]) then [s[0]] + Digits(s[1..]) else []
  }

  predicate NoDigitFirst(s: string) { s == [] || !IsDigit(s[0]) }

  lemma {:induction false} DigitsOf(s: string, rest: string)
    requires AllDigits(s) && NoDigitFirst(rest)
    ensures Digits(s + rest) == s && (s + rest)[|s|..] == rest
  {
    if s != [] {
      DigitsOf(s[1..], rest);
      assert (s + rest)[1..] == s[1..] + rest;
    }
  }

  // A number behind a mark, if it is there: what is read, and what is left.
  datatype Numeral = Absent | Number(value: nat, rest: string)

  function Marked(mark: char, s: string): Numeral {
    if s == [] || s[0] != mark || Digits(s[1..]) == [] then Absent
    else Number(ParseNum(Digits(s[1..])), s[1 + |Digits(s[1..])|..])
  }

  lemma MarkedPrinted(mark: char, n: nat, rest: string)
    requires NoDigitFirst(rest)
    ensures Marked(mark, [mark] + NumToString(n) + rest) == Number(n, rest)
  {
    var d := NumToString(n);
    var s := [mark] + d + rest;
    assert s[1..] == d + rest;
    DigitsOf(d, rest);
    ParsePrinted(n);
    assert s[1 + |d|..] == (d + rest)[|d|..];
  }

  // `(\*[0-9a-z]+)*`
  function ReadNums(s: string): (seq<nat>, string)
    decreases |s|
  {
    match Marked('*', s)
    case Absent => ([], s)
    case Number(n, rest) => MarkedShrinks('*', s); var (nums, left) := ReadNums(rest); ([n] + nums, left)
  }

  lemma MarkedShrinks(mark: char, s: string)
    ensures var m := Marked(mark, s); m.Number? ==> |m.rest| < |s|
  {}

  function WriteNums(nums: seq<nat>): string {
    if nums == [] then [] else ['*'] + NumToString(nums[0]) + WriteNums(nums[1..])
  }

  lemma {:induction false} ReadWrittenNums(nums: seq<nat>, rest: string)
    requires rest != [] && !IsDigit(rest[0]) && rest[0] != '*'
    ensures ReadNums(WriteNums(nums) + rest) == (nums, rest)
  {
    hide Marked, AllDigits, Digits;
    if nums == [] {
      assert WriteNums(nums) + rest == rest;
      NotMarked('*', rest);
    } else {
      var d, more := NumToString(nums[0]), WriteNums(nums[1..]) + rest;
      FourRegroup(['*'], d, WriteNums(nums[1..]), rest);
      WrittenNumsStart(nums[1..], rest);
      MarkedPrinted('*', nums[0], more);
      ReadWrittenNums(nums[1..], rest);
      assert nums == [nums[0]] + nums[1..];
    }
  }

  lemma WrittenNumsStart(nums: seq<nat>, rest: string)
    requires NoDigitFirst(rest)
    ensures NoDigitFirst(WriteNums(nums) + rest)
  {
    if nums == [] { assert WriteNums(nums) + rest == rest; }
  }

  lemma FourRegroup<T>(a: seq<T>, b: seq<T>, c: seq<T>, d: seq<T>)
    ensures a + b + c + d == a + b + (c + d) == a + (b + c + d) == a + (b + (c + d))
  {}

  function Symbol(o: Opcode): char
    requires o != NoOp
  {
    match o
    case Keep => '='
    case Delete => '-'
    case Insert => '+'
  }

  predicate IsSymbol(c: char) { c == '=' || c == '-' || c == '+' }

  function OpcodeOf(c: char): Opcode
    requires IsSymbol(c)
  {
    if c == '=' then Keep else if c == '-' then Delete else Insert
  }

  // An op as the assembler prints it.
  predicate Printable(op: NumOp) { op.opcode != NoOp && 0 <= op.lines && 0 <= op.chars }

  function WriteOp(op: NumOp): string
    requires Printable(op)
  {
    WriteNums(op.nums) + (if op.lines != 0 then ['|'] + NumToString(op.lines) else [])
    + [Symbol(op.opcode)] + NumToString(op.chars)
  }

  // One match of the op pattern, at the start of `s`: an op, the error opcode `?`, or the
  // empty match, with which the op string ends.
  datatype Match = OpMatch(op: NumOp, rest: string) | ErrorMatch | EmptyMatch

  function ReadLines(s: string): (nat, string) {
    match Marked('|', s)
    case Absent => (0, s)
    case Number(n, rest) => (n, rest)
  }

  function NextMatch(s: string): Match {
    var (nums, s1) := ReadNums(s);
    var (lines, s2) := ReadLines(s1);
    if s2 != [] && IsSymbol(s2[0]) && Marked(s2[0], s2).Number? then
      var m := Marked(s2[0], s2);
      OpMatch(NumOp(OpcodeOf(s2[0]), m.value, lines, nums), m.rest)
    else if s != [] && s[0] == '?' then ErrorMatch
    else EmptyMatch
  }

  lemma {:induction false} ReadNumsShrinks(s: string)
    ensures |ReadNums(s).1| <= |s|
    decreases |s|
  {
    var m := Marked('*', s);
    MarkedShrinks('*', s);
    if m.Number? { ReadNumsShrinks(m.rest); }
  }

  lemma MatchShrinks(s: string)
    ensures var m := NextMatch(s); m.OpMatch? ==> |m.rest| < |s|
  {
    ReadNumsShrinks(s);
    var s1 := ReadNums(s).1;
    MarkedShrinks('|', s1);
    var s2 := ReadLines(s1).1;
    if s2 != [] { MarkedShrinks(s2[0], s2); }
  }

  // What may follow an op: nothing that could be read as part of it.
  lemma ReadWrittenOp(op: NumOp, rest: string)
    requires Printable(op) && NoDigitFirst(rest)
    ensures NextMatch(WriteOp(op) + rest) == OpMatch(op, rest)
  {
    hide Marked, ReadNums, AllDigits, WriteNums;
    var num := NumToString(op.chars);
    var tail := [Symbol(op.opcode)] + NumToString(op.chars) + rest;
    MarkedPrinted(Symbol(op.opcode), op.chars, rest);
    if op.lines != 0 {
      var mid := ['|'] + NumToString(op.lines) + tail;
      MarkedPrinted('|', op.lines, tail);
      ReadWrittenNums(op.nums, mid);
      FourRegroup(WriteNums(op.nums), ['|'] + NumToString(op.lines), [Symbol(op.opcode)] + num, rest);
      Regroup(WriteNums(op.nums) + (['|'] + NumToString(op.lines)), [Symbol(op.opcode)], num);
    } else {
      NotMarked('|', tail);
      ReadWrittenNums(op.nums, tail);
      assert WriteNums(op.nums) + [] == WriteNums(op.nums);
      FourRegroup(WriteNums(op.nums), [Symbol(op.opcode)], num, rest);
      Regroup([Symbol(op.opcode)], num, rest);
    }
  }

  lemma NotMarked(mark: char, s: string)
    requires s != [] && s[0] != mark
    ensures Marked(mark, s) == Absent
  {}

  // ---------- op strings

  predicate AllPrintable(ops: seq<NumOp>) { forall i :: 0 <= i < |ops| ==> Printable(ops[i]) }

  function WriteOps(ops: seq<NumOp>): string
    requires AllPrintable(ops)
  {
    if ops == [] then [] else WriteOp(ops[0]) + WriteOps(ops[1..])
  }

  function ReadOps(s: string): Result<seq<NumOp>>
    decreases |s|
  {
    match NextMatch(s)
    case EmptyMatch => Success([])
    case ErrorMatch => Failure("Hit error opcode in op stream")
    case OpMatch(op, rest) =>
      MatchShrinks(s);
      match ReadOps(rest)
      case Failure(e) => Failure(e)
      case Success(ops) => Success([op] + ops)
  }

  lemma {:induction false} WrittenStart(ops: seq<NumOp>)
    requires AllPrintable(ops)
    ensures NoDigitFirst(WriteOps(ops)) && '$' !in WriteOps(ops)
  {
    if ops != [] {
      WrittenNums(ops[0].nums);
      NoDollar(NumToString(ops[0].lines));
      NoDollar(NumToString(ops[0].chars));
      WrittenStart(ops[1..]);
    }
  }

  lemma NoDollar(s: string)
    requires AllDigits(s)
    ensures '$' !in s
  {}

  lemma {:induction false} WrittenNums(nums: seq<nat>)
    ensures (WriteNums(nums) == [] || WriteNums(nums)[0] == '*') && '$' !in WriteNums(nums)
  {
    if nums != [] {
      NoDollar(NumToString(nums[0]));
      WrittenNums(nums[1..]);
    }
  }

  // Reading is the inverse of writing, for every list of ops.
  lemma {:induction false} ReadWrittenOps(ops: seq<NumOp>)
    requires AllPrintable(ops)
    ensures ReadOps(WriteOps(ops)) == Success(ops)
  {
    hide NextMatch, WriteOp;
    if ops == [] {
      NothingMatches();
    } else {
      WrittenStart(ops[1..]);
      ReadWrittenOp(ops[0], WriteOps(ops[1..]));
      ReadWrittenOps(ops[1..]);
      assert ops == [ops[0]] + ops[1..];
    }
  }

  lemma NothingMatches()
    ensures NextMatch("") == EmptyMatch
  {}

  class OpAssembler {
    var pieces: seq<string>

    constructor ()
      ensures pieces == []
    {
      pieces := [];
    }

    method Append(op: NumOp)
      requires Printable(op)
      modifies this
      ensures Flat(pieces) == old(Flat(pieces)) + WriteOp(op)
    {
      hide Flat, AllDigits, WriteNums;
      var attribs := WriteNums(op.nums);
      ghost var before := pieces;
      pieces := pieces + [attribs];
      FlatSnoc(before, attribs);
      if op.lines != 0 {
        pieces := pieces + ["|"];
        FlatSnoc(before + [attribs], "|");
        pieces := pieces + [NumToString(op.lines)];
        FlatSnoc(before + [attribs] + ["|"], NumToString(op.lines));
      }
      ghost var middle := pieces;
      pieces := pieces + [[Symbol(op.opcode)]];
      FlatSnoc(middle, [Symbol(op.opcode)]);
      pieces := pieces + [NumToString(op.chars)];
      FlatSnoc(middle + [[Symbol(op.opcode)]], NumToString(op.chars));
    }

    method ToString() returns (s: string)
      ensures s == Flat(pieces)
    {
      s := Flat(pieces);
    }

    method Clear()
      modifies this
      ensures pieces == []
    {
      pieces := [];
    }
  }

  lemma {:induction false} FlatSnoc(pieces: seq<string>, s: string)
    ensures Flat(pieces + [s]) == Flat(pieces) + s
  {
    if pieces == [] {
      assert [] + [s] == [s] && Flat([s]) == s + Flat([s][1..]);
    } else {
      FlatSnoc(pieces[1..], s);
      assert (pieces + [s])[1..] == pieces[1..] + [s];
    }
  }

  // The iterator looks one op ahead.
  class OpStringIterator {
    const opsStr: string
    var curIndex: nat
    var prevIndex: nat
    var regexResult: Match

    ghost predicate Valid()
      reads this
    {
      && prevIndex <= |opsStr| && regexResult == NextMatch(opsStr[prevIndex..])
      && (regexResult.OpMatch? ==> curIndex <= |opsStr| && regexResult.rest == opsStr[curIndex..])
    }

    // What has not been handed out.
    ghost function Unread(): string
      reads this
      requires prevIndex <= |opsStr|
    {
      opsStr[prevIndex..]
    }

    constructor (s: string, startIndex: nat)
      requires startIndex <= |s|
      ensures Valid() && opsStr == s && prevIndex == startIndex
    {
      opsStr := s;
      curIndex, prevIndex := startIndex, startIndex;
      regexResult := NextMatch(s[startIndex..]);
      new;
      TakeMatch(s[startIndex..]);
      if regexResult.OpMatch? {
        curIndex := |s| - |regexResult.rest|;
        assert s[startIndex..][curIndex - startIndex..] == s[curIndex..];
      }
    }

    method NextRegexMatch() returns (ok: bool)
      requires curIndex <= |opsStr|
      modifies this
      ensures Valid() && prevIndex == old(curIndex) && (ok <==> !regexResult.ErrorMatch?)
    {
      prevIndex := curIndex;
      regexResult := NextMatch(opsStr[prevIndex..]);
      TakeMatch(opsStr[prevIndex..]);
      if regexResult.OpMatch? {
        curIndex := |opsStr| - |regexResult.rest|;
        assert opsStr[prevIndex..][curIndex - prevIndex..] == opsStr[curIndex..];
      }
      ok := !regexResult.ErrorMatch?;
    }

    predicate HasNext()
      reads this
    {
      regexResult.OpMatch?
    }

    method Next() returns (r: Result<NumOp>)
      requires Valid() && HasNext()
      modifies this
      ensures Valid() && old(NextMatch(Unread())) == OpMatch(old(regexResult.op), Unread())
      ensures |Unread()| < |old(Unread())|
      ensures r == if regexResult.ErrorMatch? then Failure("Hit error opcode in op stream")
          else Success(old(regexResult.op))
    {
      MatchShrinks(opsStr[prevIndex..]);
      var op := regexResult.op;
      var ok := NextRegexMatch();
      r := if ok then Success(op) else Failure("Hit error opcode in op stream");
    }
  }

  lemma TakeMatch(s: string)
    ensures var m := NextMatch(s); m.OpMatch? ==> |m.rest| <= |s| && m.rest == s[|s| - |m.rest|..]
  {
    hide Digits;
    var (nums, s1) := ReadNums(s);
    NumsSuffix(s);
    MarkedSuffix('|', s1);
    var s2 := ReadLines(s1).1;
    if s2 != [] {
      MarkedSuffix(s2[0], s2);
    }
  }

  predicate Suffix(t: string, s: string) { |t| <= |s| && t == s[|s| - |t|..] }

  lemma MarkedSuffix(mark: char, s: string)
    ensures var m := Marked(mark, s); m.Number? ==> Suffix(m.rest, s)
  {}

  lemma {:induction false} NumsSuffix(s: string)
    ensures Suffix(ReadNums(s).1, s)
    decreases |s|
  {
    hide Marked;
    MarkedSuffix('*', s);
    MarkedShrinks('*', s);
    var m := Marked('*', s);
    if m.Number? { NumsSuffix(m.rest); }
  }

  // The way op strings are read everywhere: `while (iter.hasNext()) ... iter.next()`.
  method ReadAll(opsStr: string) returns (r: Result<seq<NumOp>>)
    ensures r == ReadOps(opsStr)
  {
    hide NextMatch;
    var iter := new OpStringIterator(opsStr, 0);
    assert opsStr[0..] == opsStr;
    if iter.regexResult.ErrorMatch? { return Failure("Hit error opcode in op stream"); }
    var ops := [];
    BehindNothing(ReadOps(opsStr));
    while iter.HasNext()
      invariant iter.Valid() && !iter.regexResult.ErrorMatch?
      invariant ReadOps(opsStr) == Behind(ops, ReadOps(iter.Unread()))
      decreases |iter.Unread()|
    {
      ghost var unread := iter.Unread();
      var o := iter.Next();
      MatchShrinks(unread);
      BehindNext(ops, unread);
      match o {
        case Failure(e) => return Failure(e);
        case Success(op) => ops := ops + [op];
      }
    }
    assert ops + [] == ops;
    r := Success(ops);
  }

  lemma BehindNothing(r: Result<seq<NumOp>>)
    ensures Behind([], r) == r
  {
    if r.Success? { assert [] + r.value == r.value; }
  }

  // `ops`, and then what is still to be read.
  function Behind(ops: seq<NumOp>, r: Result<seq<NumOp>>): Result<seq<NumOp>> {
    match r
    case Failure(e) => Failure(e)
    case Success(more) => Success(ops + more)
  }

  lemma BehindNext(ops: seq<NumOp>, s: string)
    requires NextMatch(s).OpMatch?
    ensures Behind(ops, ReadOps(s)) == Behind(ops + [NextMatch(s).op], ReadOps(NextMatch(s).rest))
  {
    hide NextMatch;
    MatchShrinks(s);
    var m := NextMatch(s);
    if ReadOps(m.rest).Success? {
      assert ops + ([m.op] + ReadOps(m.rest).value) == ops + [m.op] + ReadOps(m.rest).value;
    }
  }

  // ---------- whole changesets

  datatype Unpacked = Unpacked(oldLen: nat, newLen: int, ops: string, charBank: string)

  function Pack(oldLen: nat, newLen: int, opsStr: string, bank: string): string {
    var lenDiff := newLen - oldLen;
    var lenDiffStr := if lenDiff >= 0 then ">" + NumToString(lenDiff) else "<" + NumToString(-lenDiff);
    "Z:" + NumToString(oldLen) + lenDiffStr + opsStr + "$" + bank
  }

  // The first place of `c`, or the end.
  function IndexOf(s: string, c: char): (i: nat)
    ensures i <= |s| && c !in s[..i] && (i < |s| ==> s[i] == c)
  {
    if s == [] || s[0] == c then 0 else 1 + IndexOf(s[1..], c)
  }

  function Unpack(cs: string): Result<Unpacked> {
    if !("Z" <= cs) then Failure("Not a changeset: " + cs)
    else match Marked(':', cs[1..])
      case Absent => Failure("Not a changeset: " + cs)
      case Number(oldLen, s) =>
        if s == [] || (s[0] != '>' && s[0] != '<') then Failure("Not a changeset: " + cs)
        else match Marked(s[0], s)
          case Absent => Failure("Not a changeset: " + cs)
          case Number(changeMag, rest) =>
            var newLen := if s[0] == '>' then oldLen + changeMag else oldLen - changeMag;
            var opsEnd := IndexOf(rest, '$');
            Success(Unpacked(oldLen, newLen, rest[..opsEnd], if opsEnd < |rest| then rest[opsEnd + 1..] else []))
  }

  lemma {:induction false} IndexOfFirst(a: string, c: char, rest: string)
    requires c !in a
    ensures IndexOf(a + [c] + rest, c) == |a|
  {
    if a == [] {
      assert a + [c] + rest == [c] + rest;
    } else {
      IndexOfFirst(a[1..], c, rest);
      assert (a + [c] + rest)[1..] == a[1..] + [c] + rest;
      assert a[0] in a;
    }
  }

  lemma PackParts(oldLen: nat, newLen: int, opsStr: string, bank: string, sign: char, mag: nat)
    requires if newLen >= oldLen then sign == '>' && mag == newLen - oldLen else sign == '<' && mag == oldLen - newLen
    ensures var cs := Pack(oldLen, newLen, opsStr, bank);
            "Z" <= cs && cs[1..] == [':'] + NumToString(oldLen) + ([sign] + NumToString(mag) + (opsStr + ['$'] + bank))
  {
    hide NumToString, AllDigits;
    var a, b, rest := NumToString(oldLen), NumToString(mag), opsStr + ['$'] + bank;
    assert "Z:" == "Z" + [':'];
    assert Pack(oldLen, newLen, opsStr, bank) == "Z:" + a + ([sign] + b) + opsStr + "$" + bank;
    assert "Z:" + a + ([sign] + b) + opsStr + "$" + bank == "Z" + ([':'] + a + ([sign] + b + rest));
  }

  lemma RestParts(opsStr: string, bank: string)
    requires '$' !in opsStr
    ensures var rest := opsStr + ['$'] + bank;
            IndexOf(rest, '$') == |opsStr| && rest[..|opsStr|] == opsStr && rest[|opsStr| + 1..] == bank
                && |opsStr| < |rest|
  {
    IndexOfFirst(opsStr, '$', bank);
  }

  // Whatever the bank holds, dollar signs or not, unpacking gives back what was packed.
  lemma UnpackPacked(oldLen: nat, newLen: int, opsStr: string, bank: string)
    requires NoDigitFirst(opsStr) && '$' !in opsStr
    ensures Unpack(Pack(oldLen, newLen, opsStr, bank)) == Success(Unpacked(oldLen, newLen, opsStr, bank))
  {
    hide Marked, IndexOf, AllDigits, Pack, NumToString;
    var sign := if newLen >= oldLen then '>' else '<';
    var mag := if newLen >= oldLen then newLen - oldLen else oldLen - newLen;
    var rest := opsStr + ['$'] + bank;
    PackParts(oldLen, newLen, opsStr, bank, sign, mag);
    MarkedPrinted(':', oldLen, [sign] + NumToString(mag) + rest);
    MarkedPrinted(sign, mag, rest);
    RestParts(opsStr, bank);
  }

  // A changeset with the numbers of some pool in it, and its string.
  datatype NumChangeset = NumChangeset(oldLen: nat, newLen: int, ops: seq<NumOp>, bank: string)

  function WriteChangeset(c: NumChangeset): string
    requires AllPrintable(c.ops)
  {
    Pack(c.oldLen, c.newLen, WriteOps(c.ops), c.bank)
  }

  function ReadChangeset(s: string): Result<NumChangeset> {
    match Unpack(s)
    case Failure(e) => Failure(e)
    case Success(u) =>
      match ReadOps(u.ops)
      case Failure(e) => Failure(e)
      case Success(ops) => Success(NumChangeset(u.oldLen, u.newLen, ops, u.charBank))
  }

  lemma ReadWritten(c: NumChangeset)
    requires AllPrintable(c.ops)
    ensures ReadChangeset(WriteChangeset(c)) == Success(c)
  {
    hide Unpack, Pack, ReadOps, WriteOps;
    WrittenStart(c.ops);
    UnpackPacked(c.oldLen, c.newLen, WriteOps(c.ops), c.bank);
    ReadWrittenOps(c.ops);
  }

  // So comparing strings, as `checkRep` does, is comparing changesets.
  lemma SameStringSameChangeset(c: NumChangeset, d: NumChangeset)
    requires AllPrintable(c.ops) && AllPrintable(d.ops)
    ensures WriteChangeset(c) == WriteChangeset(d) <==> c == d
  {
    hide ReadChangeset, WriteChangeset;
    ReadWritten(c);
    ReadWritten(d);
  }

  // ---------- translating the numbers inside a string

  datatype Moving = Moved(text: string, pool: seq<Pair>) | NoSuchAttrib

  function Prefixed(s: string, m: Moving): Moving {
    match m
    case Moved(t, pool) => Moved(s + t, pool)
    case NoSuchAttrib => NoSuchAttrib
  }

  // Every `*` with a number behind it gets the number of the same pair in the new pool.
  function ReplaceNums(old_: seq<Pair>, new_: seq<Pair>, s: string): Moving
    decreases |s|
  {
    if s == [] then Moved([], new_)
    else match Marked('*', s)
      case Absent => Prefixed([s[0]], ReplaceNums(old_, new_, s[1..]))
      case Number(n, rest) =>
        MarkedShrinks('*', s);
        if n >= |old_| then NoSuchAttrib
        else var (m, pool) := Put(new_, old_[n]); Prefixed(['*'] + NumToString(m), ReplaceNums(old_, pool, rest))
  }

  function MoveStringToNewPool(old_: seq<Pair>, new_: seq<Pair>, cs: string): Moving {
    var dollarPos := IndexOf(cs, '$');
    match ReplaceNums(old_, new_, cs[..dollarPos])
    case NoSuchAttrib => NoSuchAttrib
    case Moved(t, pool) => Moved(t + cs[dollarPos..], pool)
  }

  lemma PrefixedTwice(s: string, t: string, m: Moving)
    ensures Prefixed(s, Prefixed(t, m)) == Prefixed(s + t, m) && Prefixed([], m) == m
  {
    if m.Moved? {
      Regroup(s, t, m.text);
      NoText(m.text);
    }
  }

  lemma NoText(s: string)
    ensures [] + s == s == s + []
  {}

  lemma {:induction false} PlainMoved(old_: seq<Pair>, new_: seq<Pair>, s: string, t: string)
    requires '*' !in s
    ensures ReplaceNums(old_, new_, s + t) == Prefixed(s, ReplaceNums(old_, new_, t))
  {
    hide Marked, Put, Prefixed;
    if s == [] {
      NoText(t);
      PrefixedTwice([], [], ReplaceNums(old_, new_, t));
    } else {
      assert s[0] in s && (s + t)[0] == s[0] && (s + t)[1..] == s[1..] + t;
      NotMarked('*', s + t);
      PlainMoved(old_, new_, s[1..], t);
      PrefixedTwice([s[0]], s[1..], ReplaceNums(old_, new_, t));
      assert [s[0]] + s[1..] == s;
    }
  }

  lemma {:induction false} NumsMoved(old_: seq<Pair>, new_: seq<Pair>, nums: seq<nat>, t: string)
    requires (forall i :: 0 <= i < |nums| ==> nums[i] < |old_|) && NoDigitFirst(t)
    ensures var (nums', pool) := MovedNums(old_, new_, nums);
            ReplaceNums(old_, new_, WriteNums(nums) + t) == Prefixed(WriteNums(nums'), ReplaceNums(old_, pool, t))
    decreases |nums|
  {
    hide Marked, Put, Prefixed, AllDigits, IndexIn;
    if nums == [] {
      NoText(t);
      PrefixedTwice([], [], ReplaceNums(old_, new_, t));
    } else {
      var d, more := NumToString(nums[0]), WriteNums(nums[1..]) + t;
      var (m, pool) := Put(new_, old_[nums[0]]);
      FourRegroup(['*'], d, WriteNums(nums[1..]), t);
      WrittenNumsStart(nums[1..], t);
      MarkedPrinted('*', nums[0], more);
      NumsMoved(old_, pool, nums[1..], t);
      var (rest, pool') := MovedNums(old_, pool, nums[1..]);
      PrefixedTwice(['*'] + NumToString(m), WriteNums(rest), ReplaceNums(old_, pool', t));
      assert ([m] + rest)[1..] == rest;
    }
  }

  lemma NoStar(s: string)
    requires AllDigits(s)
    ensures '*' !in s
  {}

  lemma OpMoved(old_: seq<Pair>, new_: seq<Pair>, op: NumOp, t: string)
    requires Printable(op) && forall k :: 0 <= k < |op.nums| ==> op.nums[k] < |old_|
    ensures var (nums', pool) := MovedNums(old_, new_, op.nums);
            ReplaceNums(old_, new_, WriteOp(op) + t)
                == Prefixed(WriteOp(op.(nums := nums')), ReplaceNums(old_, pool, t))
  {
    hide ReplaceNums, MovedNums, WriteNums, AllDigits, Prefixed;
    var a := if op.lines != 0 then ['|'] + NumToString(op.lines) else [];
    var b := [Symbol(op.opcode)] + NumToString(op.chars);
    NoStar(NumToString(op.lines));
    NoStar(NumToString(op.chars));
    var (nums', pool) := MovedNums(old_, new_, op.nums);
    OpText(op, a, b);
    OpText(op.(nums := nums'), a, b);
    Regroup(WriteNums(op.nums), a + b, t);
    NumsMoved(old_, new_, op.nums, a + b + t);
    PlainMoved(old_, pool, a + b, t);
    PrefixedTwice(WriteNums(nums'), a + b, ReplaceNums(old_, pool, t));
  }

  lemma OpText(op: NumOp, a: string, b: string)
    requires Printable(op) && a == (if op.lines != 0 then ['|'] + NumToString(op.lines) else [])
    requires b == [Symbol(op.opcode)] + NumToString(op.chars)
    ensures WriteOp(op) == WriteNums(op.nums) + (a + b)
  {
    hide AllDigits, WriteNums;
    FourRegroup(WriteNums(op.nums), a, [Symbol(op.opcode)], NumToString(op.chars));
  }

  lemma {:induction false} OpsMoved(old_: seq<Pair>, new_: seq<Pair>, ops: seq<NumOp>)
    requires AllPrintable(ops)
    requires forall i :: 0 <= i < |ops| ==> forall k :: 0 <= k < |ops[i].nums| ==> ops[i].nums[k] < |old_|
    ensures var (ops', pool) := MovedOps(old_, new_, ops);
            AllPrintable(ops') && ReplaceNums(old_, new_, WriteOps(ops)) == Moved(WriteOps(ops'), pool)
    decreases |ops|
  {
    hide ReplaceNums, MovedNums, WriteOp;
    if ops == [] {
      NothingReplaced(old_, new_);
    } else {
      var (nums, pool) := MovedNums(old_, new_, ops[0].nums);
      OpMoved(old_, new_, ops[0], WriteOps(ops[1..]));
      OpsMoved(old_, pool, ops[1..]);
      var (rest, pool') := MovedOps(old_, pool, ops[1..]);
      assert ([ops[0].(nums := nums)] + rest)[1..] == rest;
    }
  }

  lemma NothingReplaced(old_: seq<Pair>, new_: seq<Pair>)
    ensures ReplaceNums(old_, new_, "") == Moved("", new_)
  {}

  // Translating the string of a changeset, without reading it, translates its ops: only what
  // stands in front of the bank is touched, and in that only the numbers of attributes.
  lemma MovingStrings(old_: seq<Pair>, new_: seq<Pair>, c: NumChangeset)
    requires AllPrintable(c.ops)
    requires forall i :: 0 <= i < |c.ops| ==> forall k :: 0 <= k < |c.ops[i].nums| ==> c.ops[i].nums[k] < |old_|
    ensures var (ops', pool) := MovedOps(old_, new_, c.ops);
            && AllPrintable(ops')
            && MoveStringToNewPool(old_, new_, WriteChangeset(c)) == Moved(WriteChangeset(c.(ops := ops')), pool)
  {
    hide ReplaceNums, MovedOps, WriteOps, IndexOf, AllPrintable;
    var (ops', pool) := MovedOps(old_, new_, c.ops);
    OpsMoved(old_, new_, c.ops);
    WrittenStart(c.ops);
    var header := Header(c);
    HeaderIs(c, c.ops);
    HeaderIs(c, ops');
    PlainMoved(old_, new_, header, WriteOps(c.ops));
    var tail := ['$'] + c.bank;
    IndexOfFirst(header + WriteOps(c.ops), '$', c.bank);
    FrontAndBack(header + WriteOps(c.ops), c.bank);
    Regroup(header + WriteOps(c.ops), ['$'], c.bank);
    Regroup(header + WriteOps(ops'), ['$'], c.bank);
  }

  lemma FrontAndBack(a: string, b: string)
    ensures var s := a + ['$'] + b; s[..|a|] == a && s[|a|..] == ['$'] + b
  {}

  function Header(c: NumChangeset): string {
    var lenDiff := c.newLen - c.oldLen;
    "Z:" + NumToString(c.oldLen) + if lenDiff >= 0 then ">" + NumToString(lenDiff) else "<" + NumToString(-lenDiff)
  }

  lemma HeaderIs(c: NumChangeset, ops: seq<NumOp>)
    requires AllPrintable(ops)
    ensures WriteChangeset(c.(ops := ops)) == Header(c) + WriteOps(ops) + ['$'] + c.bank
    ensures '*' !in Header(c) && '$' !in Header(c)
  {
    hide WriteOps, AllDigits;
    var lenDiff := c.newLen - c.oldLen;
    var mag := if lenDiff >= 0 then lenDiff else -lenDiff;
    NoStar(NumToString(c.oldLen));
    NoStar(NumToString(mag));
    NoDollar(NumToString(c.oldLen));
    NoDollar(NumToString(mag));
  }
}
