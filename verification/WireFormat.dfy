/** The letters of the wire: which character stands for what in the string of a changeset. */
module WireFormat {
  import opened Attributes
  import opened Changesets
  import opened LineMutation
  import opened Pools
  import opened Zipping
  import opened Wire

  // ---------- numbers

  function Base36(): string { "0123456789abcdefghijklmnopqrstuvwxyz" }

  ghost predicate InBase36(s: string) { forall i :: 0 <= i < |s| ==> s[i] in Base36() }

  ghost function Place(c: char): (k: nat)
    requires c in Base36()
    ensures k < |Base36()| && Base36()[k] == c
  {
    var k: nat :| k < |Base36()| && Base36()[k] == c;
    k
  }

  // What digits are worth behind others worth `sofar`: each makes those in front count 36 times.
  ghost function Worth(s: string, sofar: nat): nat
    requires InBase36(s)
  {
    if s == [] then sofar else Worth(s[1..], sofar * 36 + Place(s[0]))
  }

  lemma DigitIs(k: nat)
    requires k < 36
    ensures |Base36()| == 36 && Digit(k) == Base36()[k]
  {}

  lemma ValueIs(c: char)
    ensures IsDigit(c) <==> c in Base36()
    ensures IsDigit(c) ==> Value(c) == Place(c)
  {
    if IsDigit(c) { DigitIs(Value(c)); }
    if c in Base36() { DigitIs(Place(c)); }
  }

  lemma DigitsAre(s: string)
    ensures AllDigits(s) <==> InBase36(s)
  {
    hide IsDigit, Base36;
    forall c { ValueIs(c); }
  }

  lemma {:induction false} WorthSnoc(s: string, c: char, sofar: nat)
    requires InBase36(s + [c])
    ensures InBase36(s) && c in Base36() && Worth(s + [c], sofar) == Worth(s, sofar) * 36 + Place(c)
  {
    hide Base36;
    assert s == (s + [c])[..|s|] && (s + [c])[|s|] == c;
    if s == [] {
      assert (s + [c])[1..] == [];
    } else {
      assert (s + [c])[1..] == s[1..] + [c];
      WorthSnoc(s[1..], c, sofar * 36 + Place(s[0]));
    }
  }

  lemma {:induction false} ParsedIsWorth(s: string)
    requires AllDigits(s)
    ensures InBase36(s) && ParseNum(s) == Worth(s, 0)
  {
    hide Base36;
    DigitsAre(s);
    if s != [] {
      var front, c := s[..|s| - 1], s[|s| - 1];
      assert s == front + [c];
      ParsedIsWorth(front);
      WorthSnoc(front, c, 0);
      ValueIs(c);
    }
  }

  lemma {:induction false} NoNeedlessZero(n: nat)
    ensures n > 0 ==> NumToString(n)[0] != '0'
  {
    if n >= 36 { NoNeedlessZero(n / 36); }
  }

  // A number is written in the digits of base 36 that are worth it, without a needless zero
  // in front, and digits are read for what they are worth.
  lemma NumbersAre(n: nat, s: string)
    ensures AllDigits(s) <==> InBase36(s)
    ensures InBase36(s) ==> ParseNum(s) == Worth(s, 0)
    ensures InBase36(NumToString(n)) && Worth(NumToString(n), 0) == n
    ensures NumToString(n)[0] == '0' ==> NumToString(n) == "0"
  {
    hide Base36;
    DigitsAre(s);
    if AllDigits(s) { ParsedIsWorth(s); }
    ParsePrinted(n);
    ParsedIsWorth(NumToString(n));
    NoNeedlessZero(n);
  }

  // ---------- ops

  lemma {:induction false} WrittenNumsHave(nums: seq<nat>, c: char)
    requires c !in Base36()
    ensures c in WriteNums(nums) <==> c == '*' && nums != []
  {
    hide Base36;
    if nums != [] {
      DigitsAre(NumToString(nums[0]));
      NotWritten(NumToString(nums[0]), c);
      WrittenNumsHave(nums[1..], c);
    }
  }

  lemma NotWritten(s: string, c: char)
    requires InBase36(s) && c !in Base36()
    ensures c !in s
  {
    hide Base36;
  }

  // Each opcode has its letter, and what an op has besides has a mark in front.
  lemma OpIsWritten(op: NumOp)
    requires Printable(op)
    ensures '+' in WriteOp(op) <==> op.opcode == Insert
    ensures '-' in WriteOp(op) <==> op.opcode == Delete
    ensures '=' in WriteOp(op) <==> op.opcode == Keep
    ensures '|' in WriteOp(op) <==> op.lines > 0
    ensures '*' in WriteOp(op) <==> op.nums != []
    ensures WriteOp(op) == WriteNums(op.nums) + (if op.lines > 0 then "|" + NumToString(op.lines) else "")
        + (if op.opcode == Insert then "+" else if op.opcode == Delete then "-" else "=") + NumToString(op.chars)
  {
    hide WriteNums, NumToString, AllDigits, Base36;
    NotDigits();
    DigitsAre(NumToString(op.lines));
    DigitsAre(NumToString(op.chars));
    forall c | c in {'+', '-', '=', '|', '*'}
      ensures c in WriteOp(op) <==>
                (c == '*' && op.nums != []) || (op.lines > 0 && c == '|') || c == Symbol(op.opcode)
    {
      WrittenNumsHave(op.nums, c);
      NotWritten(NumToString(op.lines), c);
      NotWritten(NumToString(op.chars), c);
    }
  }

  lemma NotDigits()
    ensures '+' !in Base36() && '-' !in Base36() && '=' !in Base36() && '|' !in Base36() && '*' !in Base36()
  {
    hide Base36;
    forall c { ValueIs(c); }
  }

  // A letter with digits behind it is read as an op of its kind, and a question mark fails.
  lemma OpIsRead(digits: string)
    requires digits != [] && InBase36(digits)
    ensures AllDigits(digits)
    ensures ReadOps("+" + digits) == Success([NumOp(Insert, ParseNum(digits), 0, [])])
    ensures ReadOps("-" + digits) == Success([NumOp(Delete, ParseNum(digits), 0, [])])
    ensures ReadOps("=" + digits) == Success([NumOp(Keep, ParseNum(digits), 0, [])])
    ensures ReadOps("?" + digits).Failure?
  {
    hide Digits, AllDigits, IsDigit, ParseNum, InBase36, NextMatch;
    DigitsAre(digits);
    LoneOp('+', Insert, digits);
    LoneOp('-', Delete, digits);
    LoneOp('=', Keep, digits);
    QuestionMark(digits);
  }

  lemma LoneOp(c: char, opcode: Opcode, digits: string)
    requires digits != [] && AllDigits(digits) && IsSymbol(c) && opcode == OpcodeOf(c)
    ensures ReadOps([c] + digits) == Success([NumOp(opcode, ParseNum(digits), 0, [])])
  {
    hide AllDigits, ParseNum, NextMatch;
    MarkIsRead(c, digits);
    NothingMatches();
    var op := NumOp(opcode, ParseNum(digits), 0, []);
    assert [op] + [] == [op];
  }

  lemma QuestionMark(s: string)
    ensures NextMatch("?" + s) == ErrorMatch
  {}

  lemma MarkIsRead(c: char, digits: string)
    requires digits != [] && AllDigits(digits) && IsSymbol(c)
    ensures NextMatch([c] + digits) == OpMatch(NumOp(OpcodeOf(c), ParseNum(digits), 0, []), "")
  {
    hide Digits, AllDigits, ParseNum, Marked;
    MarkThenDigits(c, digits);
    NotMarked('*', [c] + digits);
    NotMarked('|', [c] + digits);
  }

  lemma MarkThenDigits(c: char, digits: string)
    requires digits != [] && AllDigits(digits)
    ensures Marked(c, [c] + digits) == Number(ParseNum(digits), "")
    ensures ([c] + digits)[0] == c
  {
    assert ([c] + digits)[1..] == digits && digits + "" == digits;
    DigitsOf(digits, "");
    assert ([c] + digits)[1 + |digits|..] == "";
  }

  // ---------- whole strings

  // `Z`, the old length, how much longer or shorter the text becomes, the ops and the bank.
  lemma ChangesetIsWritten(c: NumChangeset)
    requires AllPrintable(c.ops)
    ensures WriteChangeset(c) == "Z:" + NumToString(c.oldLen)
        + (if c.newLen < c.oldLen then "<" + NumToString(c.oldLen - c.newLen)
           else ">" + NumToString(c.newLen - c.oldLen))
        + WriteOps(c.ops) + "$" + c.bank
  {}

  lemma TypingOneLetter()
    ensures WriteChangeset(NumChangeset(2, 3, [NumOp(Insert, 1, 0, [])], "a")) == "Z:2>1+1$a"
    ensures ReadChangeset("Z:2>1+1$a") == Success(NumChangeset(2, 3, [NumOp(Insert, 1, 0, [])], "a"))
  {
    hide NumToString, WriteNums, WriteOp, WriteOps, ReadChangeset, WriteChangeset;
    var o := NumOp(Insert, 1, 0, []);
    SmallNums();
    NoNums();
    OpIsWritten(o);
    OneOp(o);
    ChangesetIsWritten(NumChangeset(2, 3, [o], "a"));
    ReadWritten(NumChangeset(2, 3, [o], "a"));
  }

  lemma SmallNums()
    ensures NumToString(0) == "0" && NumToString(1) == "1" && NumToString(2) == "2" && NumToString(3) == "3"
    ensures NumToString(9) == "9" && NumToString(12) == "c"
  {}

  lemma LargerNums()
    ensures NumToString(36) == "10" && NumToString(37) == "11" && NumToString(71) == "1z"
  {
    assert 36 / 36 == 37 / 36 == 71 / 36 == 1;
  }


  // Of 71 characters a line of 36 is kept, three are typed with two attributes, and twelve go.
  lemma KeepingTypingAndDeleting()
    ensures var c := NumChangeset(71, 62, [NumOp(Keep, 36, 1, []), NumOp(Insert, 3, 0, [0, 37]),
                                           NumOp(Delete, 12, 0, [])], "abc");
            && WriteChangeset(c) == "Z:1z<9|1=10*0*11+3-c$abc"
            && ReadChangeset("Z:1z<9|1=10*0*11+3-c$abc") == Success(c)
  {
    hide NumToString, WriteNums, WriteOp, WriteOps, ReadChangeset, WriteChangeset;
    var o1, o2, o3 := NumOp(Keep, 36, 1, []), NumOp(Insert, 3, 0, [0, 37]), NumOp(Delete, 12, 0, []);
    SmallNums();
    LargerNums();
    NoNums();
    TwoNums(0, 37);
    OpIsWritten(o1);
    OpIsWritten(o2);
    OpIsWritten(o3);
    ThreeOps(o1, o2, o3);
    FourPieces(WriteOp(o1), WriteOp(o2), WriteOp(o3));
    var c := NumChangeset(71, 62, [o1, o2, o3], "abc");
    ChangesetIsWritten(c);
    ReadWritten(c);
  }

  lemma FourPieces(a: string, b: string, c: string)
    requires a == "" + ("|" + "1") + "=" + "10" && b == "*" + "0" + "*" + "11" + "" + "+" + "3"
    requires c == "" + "" + "-" + "c"
    ensures "Z:" + "1z" + ("<" + "9") + (a + b + c) + "$" + "abc" == "Z:1z<9|1=10*0*11+3-c$abc"
  {}

  lemma NoNums()
    ensures WriteNums([]) == ""
  {}

  lemma TwoNums(m: nat, n: nat)
    ensures WriteNums([m, n]) == "*" + NumToString(m) + "*" + NumToString(n)
  {
    hide NumToString, AllDigits;
    assert [m, n][1..] == [n] && [n][1..] == [];
    assert WriteNums([n]) == "*" + NumToString(n) + WriteNums([n][1..]);
    assert WriteNums([m, n]) == "*" + NumToString(m) + WriteNums([m, n][1..]);
  }

  lemma OneOp(a: NumOp)
    requires Printable(a)
    ensures AllPrintable([a]) && WriteOps([a]) == WriteOp(a)
  {
    hide WriteOp;
    assert [a][1..] == [] && WriteOps([a]) == WriteOp(a) + WriteOps([a][1..]);
  }

  lemma ThreeOps(a: NumOp, b: NumOp, c: NumOp)
    requires Printable(a) && Printable(b) && Printable(c)
    ensures AllPrintable([a, b, c]) && WriteOps([a, b, c]) == WriteOp(a) + WriteOp(b) + WriteOp(c)
  {
    hide WriteOp;
    assert [a, b, c][1..] == [b, c] && [b, c][1..] == [c];
    OneOp(c);
    Regroup(WriteOp(a), WriteOp(b), WriteOp(c));
    assert WriteOps([b, c]) == WriteOp(b) + WriteOps([b, c][1..]);
    assert WriteOps([a, b, c]) == WriteOp(a) + WriteOps([a, b, c][1..]);
  }
}
