/** How easysync 1 writes changesets and runs of authors into strings, and reads them back. */
module StripCodes {
  import opened Layers
  import opened Zipping

  // A code unit of a string.
  type Code = c: int | 0 <= c < 0x1_0000

  type Codes = seq<Code>

  // ---------- numbers in one unit, or in two

  const LIMIT := 0x1000_0000

  // Only the low 28 bits are written.
  function WriteNum(n: nat): Codes {
    var low := n % LIMIT;
    if low <= 0x7fff then [low] else [0xa000 + low / 0x8000, low % 0x8000]
  }

  // `x` shifted by 15 bits, with the bits of `y` in it.
  function Shifted(x: nat, y: Code): nat {
    (if y < 0x8000 then x else x + 1 - x % 2) * 0x8000 + y % 0x8000
  }

  datatype NumRead = CutOff | NumRead(n: nat, rest: Codes)

  function ReadNum(s: Codes): NumRead {
    if s == [] then CutOff
    else if s[0] <= 0x7fff then NumRead(s[0], s[1..])
    else if |s| == 1 then CutOff
    else if s[0] >= 0xa000 then NumRead(Shifted(s[0] % 0x2000, s[1]), s[2..])
    else NumRead((s[0] as int) % 0x2000 * 0x1_0000 + s[1], s[2..]) // as it was written before
  }

  lemma NumIsRead(n: nat, rest: Codes)
    ensures ReadNum(WriteNum(n) + rest) == NumRead(n % LIMIT, rest)
  {
    var low := n % LIMIT;
    if low > 0x7fff {
      assert (WriteNum(n) + rest)[0] == 0xa000 + low / 0x8000 && (WriteNum(n) + rest)[1] == low % 0x8000;
      assert (0xa000 + low / 0x8000) % 0x2000 == low / 0x8000;
    }
  }

  function WriteNums(nums: seq<nat>): Codes { if nums == [] then [] else WriteNum(nums[0]) + WriteNums(nums[1..]) }

  datatype NumsRead = NumsCutOff | NumsRead(nums: seq<nat>, rest: Codes)

  function ReadNums(s: Codes, len: nat): NumsRead {
    if len == 0 then NumsRead([], s)
    else
      match ReadNum(s)
      case CutOff => NumsCutOff
      case NumRead(n, rest) =>
        match ReadNums(rest, len - 1)
        case NumsCutOff => NumsCutOff
        case NumsRead(nums, end) => NumsRead([n] + nums, end)
  }

  function NumberArrayFromString(s: Codes): NumsRead {
    match ReadNum(s)
    case CutOff => NumsCutOff
    case NumRead(len, rest) => ReadNums(rest, len)
  }

  function Low(nums: seq<nat>): (r: seq<nat>)
    ensures |r| == |nums| && forall i :: 0 <= i < |nums| ==> r[i] == nums[i] % LIMIT
  {
    seq(|nums|, i requires 0 <= i < |nums| => nums[i] % LIMIT)
  }

  lemma {:induction false} NumsAreRead(nums: seq<nat>, rest: Codes)
    ensures ReadNums(WriteNums(nums) + rest, |nums|) == NumsRead(Low(nums), rest)
  {
    hide ReadNum, WriteNum;
    if nums == [] {
      assert WriteNums(nums) + rest == rest;
    } else {
      assert WriteNums(nums) + rest == WriteNum(nums[0]) + (WriteNums(nums[1..]) + rest);
      NumIsRead(nums[0], WriteNums(nums[1..]) + rest);
      NumsAreRead(nums[1..], rest);
      assert [nums[0] % LIMIT] + Low(nums[1..]) == Low(nums);
    }
  }

  method NumberArrayToString(nums: seq<nat>) returns (r: Codes)
    ensures r == WriteNum(|nums|) + WriteNums(nums)
  {
    hide WriteNum;
    var written := WriteNum(|nums|);
    assert nums[0..] == nums;
    for i := 0 to |nums|
      invariant written + WriteNums(nums[i..]) == WriteNum(|nums|) + WriteNums(nums)
    {
      assert nums[i..][0] == nums[i] && nums[i..][1..] == nums[i + 1..];
      ThreeJoined(written, WriteNum(nums[i]), WriteNums(nums[i + 1..]));
      written := written + WriteNum(nums[i]);
    }
    assert written + [] == written;
    r := written;
  }

  lemma ThreeJoined<T>(x: seq<T>, y: seq<T>, z: seq<T>)
    ensures x + (y + z) == (x + y) + z
  {}

  // A list comes back exactly if none of the numbers is too large.
  lemma ArrayIsRead(nums: seq<nat>, rest: Codes)
    requires |nums| < LIMIT
    ensures NumberArrayFromString(WriteNum(|nums|) + WriteNums(nums) + rest) == NumsRead(Low(nums), rest)
    ensures Low(nums) == nums <==> forall i :: 0 <= i < |nums| ==> nums[i] < LIMIT
  {
    hide ReadNum, WriteNum, ReadNums, WriteNums, Low;
    ThreeJoined(WriteNum(|nums|), WriteNums(nums), rest);
    NumIsRead(|nums|, WriteNums(nums) + rest);
    SmallIsLow(|nums|);
    NumsAreRead(nums, rest);
    LowIs(nums);
  }

  lemma SmallIsLow(n: nat)
    requires n < LIMIT
    ensures n % LIMIT == n
  {}

  lemma LowIs(nums: seq<nat>)
    ensures Low(nums) == nums <==> forall i :: 0 <= i < |nums| ==> nums[i] < LIMIT
  {
    if forall i :: 0 <= i < |nums| ==> nums[i] < LIMIT {
      assert Low(nums) == nums;
    } else {
      var i :| 0 <= i < |nums| && nums[i] >= LIMIT;
      assert Low(nums)[i] != nums[i];
    }
  }

  // ---------- characters that do not travel well

  const BACKSLASH: Code := 0x5c
  const LETTER_U: Code := 0x75

  predicate IsSurrogate(c: Code) { 0xd800 <= c <= 0xdfff }

  function HexDigit(n: nat): Code
    requires n < 16
  {
    if n < 10 then 0x30 + n else 0x61 + (n - 10)
  }

  // The value of a digit, for those that are written.
  function HexValue(c: Code): Option<nat> {
    if 0x30 <= c <= 0x39 then Some(c - 0x30)
    else if 0x61 <= c <= 0x66 then Some(c - 0x61 + 10)
    else if 0x41 <= c <= 0x46 then Some(c - 0x41 + 10)
    else None
  }

  function HexDigits(c: Code): (r: Codes)
    ensures |r| == 4
  {
    [HexDigit(c / 0x1000), HexDigit(c / 0x100 % 16), HexDigit(c / 16 % 16), HexDigit(c % 16)]
  }

  function EscapeOne(c: Code): Codes {
    if c == BACKSLASH then [BACKSLASH, BACKSLASH]
    else if IsSurrogate(c) then
      [BACKSLASH, LETTER_U] + HexDigits(c)
    else [c]
  }

  function Escape(s: Codes): Codes { if s == [] then [] else EscapeOne(s[0]) + Escape(s[1..]) }

  // Four digits in hexadecimal, if they are.
  function HexOf(s: Codes): Option<Code>
    requires |s| >= 4
  {
    match (HexValue(s[0]), HexValue(s[1]), HexValue(s[2]), HexValue(s[3]))
    case (Some(a), Some(b), Some(c), Some(d)) =>
      if a < 16 && b < 16 && c < 16 && d < 16 then Some(((a * 16 + b) * 16 + c) * 16 + d) else None
    case _ => None
  }

  // A backslash that neither of the two forms follows stays. What is not four digits is read
  // as no number, which is the character 0.
  function Unescape(s: Codes): Codes {
    if s == [] then []
    else if s[0] == BACKSLASH && |s| >= 2 && s[1] == BACKSLASH then [BACKSLASH] + Unescape(s[2..])
    else if s[0] == BACKSLASH && |s| >= 6 && s[1] == LETTER_U && NoLineEnd(s[2..6]) then
      [if HexOf(s[2..6]).Some? then HexOf(s[2..6]).value else 0] + Unescape(s[6..])
    else [s[0]] + Unescape(s[1..])
  }

  // What a dot of a pattern matches.
  predicate NoLineEnd(s: Codes) {
    forall i :: 0 <= i < |s| ==> s[i] != 0x0a && s[i] != 0x0d && s[i] != 0x2028 && s[i] != 0x2029
  }

  lemma HexIsRead(c: Code)
    ensures NoLineEnd(HexDigits(c)) && HexOf(HexDigits(c)) == Some(c)
  {
    hide HexValue, HexDigit;
    DigitIsRead(c / 0x1000);
    DigitIsRead(c / 0x100 % 16);
    DigitIsRead(c / 16 % 16);
    DigitIsRead(c % 16);
    SixteenParts(c);
  }

  lemma SixteenParts(c: Code)
    ensures ((c / 0x1000 * 16 + c / 0x100 % 16) * 16 + c / 16 % 16) * 16 + c % 16 == c
  {
    assert c / 0x100 == c / 0x1000 * 16 + c / 0x100 % 16;
    assert c / 16 == c / 0x100 * 16 + c / 16 % 16;
  }

  lemma DigitIsRead(n: nat)
    requires n < 16
    ensures HexValue(HexDigit(n)) == Some(n) && 0x30 <= HexDigit(n) <= 0x66
  {}

  lemma {:induction false} UnescapeFront(c: Code, rest: Codes)
    ensures Unescape(EscapeOne(c) + rest) == [c] + Unescape(rest)
  {
    hide HexDigits, HexOf, NoLineEnd;
    HexIsRead(c);
    var s := EscapeOne(c) + rest;
    if c == BACKSLASH {
      assert s[2..] == rest;
    } else if IsSurrogate(c) {
      assert s[2..6] == HexDigits(c) && s[6..] == rest;
    } else {
      assert s[1..] == rest;
    }
  }

  lemma {:induction false} EscapeIsRead(s: Codes)
    ensures Unescape(Escape(s)) == s
  {
    hide EscapeOne;
    if s != [] {
      UnescapeFront(s[0], Escape(s[1..]));
      EscapeIsRead(s[1..]);
    }
  }

  lemma {:induction false} EscapedHasNone(s: Codes)
    ensures forall i :: 0 <= i < |Escape(s)| ==> !IsSurrogate(Escape(s)[i])
  {
    if s != [] { EscapedHasNone(s[1..]); }
  }

  // ---------- changesets

  datatype CodeStrip = CodeStrip(start: nat, taken: nat, text: Codes)

  datatype CodeChangeset = CodeChangeset(oldLen: nat, newLen: nat, strips: seq<CodeStrip>)

  function StripNums(strips: seq<CodeStrip>): seq<nat> {
    if strips == [] then []
    else [strips[0].start, strips[0].taken, |strips[0].text|] + StripNums(strips[1..])
  }

  function NumsOf(c: CodeChangeset): seq<nat> { [c.oldLen, c.newLen] + StripNums(c.strips) }

  function Texts(strips: seq<CodeStrip>): Codes { if strips == [] then [] else strips[0].text + Texts(strips[1..]) }

  const LETTER_A: Code := 0x41

  function Encoded(c: CodeChangeset): Codes {
    [LETTER_A] + (WriteNum(|NumsOf(c)|) + WriteNums(NumsOf(c))) + Escape(Texts(c.strips))
  }

  // ---------- the readable form

  const COMMA: Code := 0x2c

  const BAR: Code := 0x7c

  // "Changeset"
  const MAGIC: Codes := [0x43, 0x68, 0x61, 0x6e, 0x67, 0x65, 0x73, 0x65, 0x74]

  predicate IsDecimal(c: Code) { 48 <= c < 58 }

  predicate AllDecimal(s: Codes) { forall i :: 0 <= i < |s| ==> IsDecimal(s[i]) }

  function Decimal(n: nat): (s: Codes)
    ensures s != [] && AllDecimal(s)
  {
    if n < 10 then [48 + n] else Decimal(n / 10) + [48 + n % 10]
  }

  function DecimalValue(s: Codes): nat
    requires AllDecimal(s)
  {
    if s == [] then 0 else DecimalValue(s[..|s| - 1]) * 10 + (s[|s| - 1] - 48)
  }

  lemma {:induction false} DecimalIsRead(n: nat)
    ensures DecimalValue(Decimal(n)) == n
  {
    if n < 10 {
      assert [48 + n as Code][..0] == [];
    } else {
      DecimalIsRead(n / 10);
      var s := Decimal(n / 10);
      assert (s + [48 + n % 10])[..|s|] == s;
    }
  }

  function Decimals(nums: seq<nat>): (r: seq<Codes>)
    ensures |r| == |nums| && forall i :: 0 <= i < |r| ==> r[i] == Decimal(nums[i])
  {
    seq(|nums|, i requires 0 <= i < |nums| => Decimal(nums[i]))
  }

  // `parts.join(',')`
  function Joined(parts: seq<Codes>): Codes {
    if parts == [] then [] else if |parts| == 1 then parts[0] else parts[0] + [COMMA] + Joined(parts[1..])
  }

  // What comes before the first `c`, which may not be there.
  function Before(s: Codes, c: Code): (r: Codes)
    ensures r <= s && c !in r && (r == s || s[|r|] == c)
  {
    if s == [] || s[0] == c then [] else [s[0]] + Before(s[1..], c)
  }

  // `s.split(',')`
  function Split(s: Codes): (r: seq<Codes>)
    ensures r != []
    decreases |s|
  {
    var x := Before(s, COMMA);
    if x == s then [s] else [x] + Split(s[|x| + 1..])
  }

  lemma {:induction false} BeforeIs(x: Codes, c: Code, rest: Codes)
    requires c !in x
    ensures Before(x + [c] + rest, c) == x && (x + [c] + rest)[|x| + 1..] == rest && Before(x, c) == x
  {
    if x != [] {
      assert x == [x[0]] + x[1..] && x[0] in x;
      BeforeIs(x[1..], c, rest);
      assert (x + [c] + rest)[1..] == x[1..] + [c] + rest;
    }
  }

  lemma {:induction false} SplitJoined(parts: seq<Codes>)
    requires parts != [] && forall i :: 0 <= i < |parts| ==> COMMA !in parts[i]
    ensures Split(Joined(parts)) == parts
  {
    hide Before;
    if |parts| == 1 {
      BeforeIs(parts[0], COMMA, []);
      assert parts == [parts[0]];
    } else {
      SplitJoined(parts[1..]);
      BeforeIs(parts[0], COMMA, Joined(parts[1..]));
      assert parts == [parts[0]] + parts[1..];
    }
  }

  lemma {:induction false} JoinedHasNo(parts: seq<Codes>, c: Code)
    requires c != COMMA && forall i :: 0 <= i < |parts| ==> c !in parts[i]
    ensures c !in Joined(parts)
  {
    if |parts| > 1 { JoinedHasNo(parts[1..], c); }
  }

  function EncodedText(c: CodeChangeset): Codes {
    Joined([MAGIC] + Decimals(NumsOf(c))) + [BAR] + Texts(c.strips)
  }

  method EncodeToString(c: CodeChangeset, asBinary: bool) returns (r: Codes)
    ensures r == if asBinary then Encoded(c) else EncodedText(c)
  {
    hide Joined, Escape, WriteNums, WriteNum;
    var stringData, numsArray := [], [c.oldLen, c.newLen];
    assert c.strips[0..] == c.strips;
    for i := 0 to |c.strips|
      invariant numsArray + StripNums(c.strips[i..]) == NumsOf(c)
      invariant stringData + Texts(c.strips[i..]) == Texts(c.strips)
    {
      var s := c.strips[i];
      assert c.strips[i..][0] == s && c.strips[i..][1..] == c.strips[i + 1..];
      ThreeJoined(numsArray, [s.start, s.taken, |s.text|], StripNums(c.strips[i + 1..]));
      ThreeJoined(stringData, s.text, Texts(c.strips[i + 1..]));
      numsArray := numsArray + [s.start, s.taken, |s.text|];
      stringData := stringData + s.text;
    }
    assert numsArray + [] == numsArray && stringData + [] == stringData;
    if asBinary {
      var nums := NumberArrayToString(numsArray);
      r := [LETTER_A] + nums + Escape(stringData);
    } else {
      r := Joined([MAGIC] + Decimals(numsArray)) + [BAR] + stringData;
    }
  }

  // The strips that numbers and texts make up; those that lack a number are not there.
  function Strips(nums: seq<nat>, data: Codes): seq<CodeStrip>
    decreases |nums|
  {
    if |nums| < 3 then []
    else [CodeStrip(nums[0], nums[1], Front(data, nums[2]))] + Strips(nums[3..], Behind(data, nums[2]))
  }

  function Front(s: Codes, n: nat): Codes { if n <= |s| then s[..n] else s }

  function Behind(s: Codes, n: nat): Codes { if n <= |s| then s[n..] else [] }

  // How much text the numbers ask for.
  function Asked(nums: seq<nat>): nat
    decreases |nums|
  {
    if |nums| < 3 then 0 else nums[2] + Asked(nums[3..])
  }

  function Decoded(nums: seq<nat>, data: Codes): Result<CodeChangeset> {
    if |nums| < 2 || |nums| % 3 != 2 then Failure("numbers are missing")
    else if Asked(nums[2..]) != |data| then Failure("Extra character data beyond end of encoded string")
    else Success(CodeChangeset(nums[0], nums[1], Strips(nums[2..], data)))
  }

  // The numbers behind the name; those that are not written in decimal digits are not read.
  function ReadDecimals(parts: seq<Codes>): Option<seq<nat>> {
    if parts == [] then Some([])
    else if !AllDecimal(parts[0]) then None
    else match ReadDecimals(parts[1..])
      case None => None
      case Some(nums) => Some([DecimalValue(parts[0])] + nums)
  }

  // Without a bar all of the string is text that no number asks for.
  function DecodedText(str: Codes): Result<CodeChangeset> {
    var front := Before(str, BAR);
    if front == str then Failure("Extra character data beyond end of encoded string")
    else match ReadDecimals(Split(front)[1..])
      case None => Failure("numbers are missing")
      case Some(nums) => Decoded(nums, str[|front| + 1..])
  }

  const LETTER_B: Code := 0x42

  const LETTER_C: Code := 0x43

  // By the first letter: numbers in code units, with the text escaped or, as it was written
  // before, not; or the readable form.
  function DecodedString(str: Codes): Result<CodeChangeset> {
    if str == [] || (str[0] != LETTER_A && str[0] != LETTER_B && str[0] != LETTER_C) then Failure("Not a changeset")
    else if str[0] == LETTER_C then DecodedText(str)
    else match NumberArrayFromString(str[1..])
      case NumsCutOff => Failure("numbers are missing")
      case NumsRead(nums, rest) => Decoded(nums, if str[0] == LETTER_A then Unescape(rest) else rest)
  }

  // Where numbers are missing, nothing is made.
  method DecodeFromString(str: Codes) returns (r: Result<CodeChangeset>)
    ensures r == DecodedString(str)
  {
    hide ReadNums, ReadNum, Unescape, NumberArrayFromString, Strips, Asked, Split, ReadDecimals, Before;
    if str == [] { return Failure("Not a changeset"); }
    var typ := str[0];
    var numData, stringData;
    if typ == LETTER_B || typ == LETTER_A {
      var result := NumberArrayFromString(str[1..]);
      if result.NumsCutOff? { return Failure("numbers are missing"); }
      numData, stringData := result.nums, result.rest;
      if typ == LETTER_A {
        stringData := Unescape(stringData);
      }
    } else if typ == LETTER_C {
      var front := Before(str, BAR);
      if front == str { return Failure("Extra character data beyond end of encoded string"); }
      var nums := ReadDecimals(Split(front)[1..]);
      if nums.None? { return Failure("numbers are missing"); }
      numData, stringData := nums.value, str[|front| + 1..];
    } else {
      return Failure("Not a changeset");
    }
    r := StripsFromNums(numData, stringData);
  }

  // The loop over the numbers.
  method StripsFromNums(numData: seq<nat>, stringData: Codes) returns (r: Result<CodeChangeset>)
    ensures r == Decoded(numData, stringData)
  {
    hide Strips, Asked;
    if |numData| < 2 || |numData| % 3 != 2 { return Failure("numbers are missing"); }
    var stringDataOffset: nat := 0;
    var strips, ptr := [], 2;
    while ptr < |numData|
      invariant 2 <= ptr <= |numData| && ptr % 3 == 2
      invariant stringDataOffset + Asked(numData[ptr..]) == Asked(numData[2..])
      invariant strips + Strips(numData[ptr..], Behind(stringData, stringDataOffset))
          == Strips(numData[2..], stringData)
    {
      var next := numData[ptr..];
      var newTextLength := next[2];
      var strip := CodeStrip(next[0], next[1], Front(Behind(stringData, stringDataOffset), newTextLength));
      assert next[3..] == numData[ptr + 3..];
      StripNext(next, Behind(stringData, stringDataOffset));
      BehindTwice(stringData, stringDataOffset, newTextLength);
      ThreeJoined(strips, [strip], Strips(next[3..], Behind(stringData, stringDataOffset + newTextLength)));
      strips := strips + [strip];
      stringDataOffset := stringDataOffset + newTextLength;
      ptr := ptr + 3;
    }
    NothingAsked();
    assert numData[ptr..] == [] && strips + [] == strips;
    if stringDataOffset != |stringData| {
      return Failure("Extra character data beyond end of encoded string");
    }
    r := Success(CodeChangeset(numData[0], numData[1], strips));
  }

  lemma StripNext(nums: seq<nat>, data: Codes)
    requires |nums| >= 3
    ensures Asked(nums) == nums[2] + Asked(nums[3..])
    ensures Strips(nums, data) == [CodeStrip(nums[0], nums[1], Front(data, nums[2]))]
        + Strips(nums[3..], Behind(data, nums[2]))
  {}

  lemma BehindTwice(s: Codes, a: nat, b: nat)
    ensures Behind(Behind(s, a), b) == Behind(s, a + b)
  {}

  // One strip in front.
  lemma StripFront(s: CodeStrip, nums: seq<nat>, data: Codes)
    ensures Asked([s.start, s.taken, |s.text|] + nums) == |s.text| + Asked(nums)
    ensures Strips([s.start, s.taken, |s.text|] + nums, s.text + data) == [s] + Strips(nums, data)
  {
    var n, t := [s.start, s.taken, |s.text|] + nums, s.text + data;
    assert n[3..] == nums && n[0] == s.start && n[1] == s.taken && n[2] == |s.text|;
    assert Front(t, n[2]) == s.text && Behind(t, n[2]) == data;
  }

  lemma {:induction false} StripsAreRead(strips: seq<CodeStrip>)
    ensures |StripNums(strips)| % 3 == 0
    ensures Asked(StripNums(strips)) == |Texts(strips)| && Strips(StripNums(strips), Texts(strips)) == strips
  {
    hide Strips, Asked;
    if strips == [] {
      NothingAsked();
    } else {
      StripsAreRead(strips[1..]);
      StripFront(strips[0], StripNums(strips[1..]), Texts(strips[1..]));
      assert [strips[0]] + strips[1..] == strips;
    }
  }

  lemma NothingAsked()
    ensures Asked([]) == 0 && forall data: Codes :: Strips([], data) == []
  {}

  // Numbers that are read as the strips of a changeset are its numbers.
  lemma {:induction false} StripsTellNums(nums: seq<nat>, data: Codes)
    requires |nums| % 3 == 0 && Asked(nums) == |data|
    ensures StripNums(Strips(nums, data)) == nums
    decreases |nums|
  {
    if |nums| >= 3 {
      StripsTellNums(nums[3..], Behind(data, nums[2]));
      assert nums == [nums[0], nums[1], nums[2]] + nums[3..];
      var rest := Strips(nums[3..], Behind(data, nums[2]));
      var s := CodeStrip(nums[0], nums[1], Front(data, nums[2]));
      assert ([s] + rest)[1..] == rest;
    }
  }

  // A changeset is read as it was written exactly if it has no number of more than 28 bits.
  lemma ChangesetIsRead(c: CodeChangeset)
    requires |NumsOf(c)| < LIMIT
    ensures DecodedString(Encoded(c)) == Success(c) <==> forall i :: 0 <= i < |NumsOf(c)| ==> NumsOf(c)[i] < LIMIT
  {
    hide WriteNum, WriteNums, ReadNum, ReadNums, Escape, Unescape, Low, Decoded, NumsOf, Texts, NumberArrayFromString;
    SomeNums(c);
    var nums, texts := NumsOf(c), Texts(c.strips);
    assert Encoded(c)[1..] == WriteNum(|nums|) + WriteNums(nums) + Escape(texts);
    ArrayIsRead(nums, Escape(texts));
    EscapeIsRead(texts);
    DecodedIs(c);
    if Decoded(Low(nums), texts) == Success(c) { DecodedTells(Low(nums), texts, c); }
  }

  lemma SomeNums(c: CodeChangeset)
    ensures Encoded(c) == [LETTER_A] + (WriteNum(|NumsOf(c)|) + WriteNums(NumsOf(c)) + Escape(Texts(c.strips)))
  {}

  lemma DecodedIs(c: CodeChangeset)
    ensures Decoded(NumsOf(c), Texts(c.strips)) == Success(c)
  {
    hide Strips, Asked, StripNums, Texts;
    StripsAreRead(c.strips);
    assert NumsOf(c)[2..] == StripNums(c.strips);
  }

  lemma DecodedTells(nums: seq<nat>, data: Codes, c: CodeChangeset)
    requires Decoded(nums, data) == Success(c)
    ensures nums == NumsOf(c)
  {
    StripsTellNums(nums[2..], data);
    assert nums == [nums[0], nums[1]] + nums[2..];
  }

  lemma {:induction false} DecimalsAreRead(nums: seq<nat>)
    ensures ReadDecimals(Decimals(nums)) == Some(nums)
  {
    hide Decimal, DecimalValue;
    if nums != [] {
      DecimalIsRead(nums[0]);
      DecimalsAreRead(nums[1..]);
      assert Decimals(nums)[1..] == Decimals(nums[1..]);
      assert nums == [nums[0]] + nums[1..];
    }
  }

  // The readable form is read as it was written, whatever the numbers.
  lemma TextIsRead(c: CodeChangeset)
    ensures DecodedString(EncodedText(c)) == Success(c)
  {
    hide Joined, Split, Before, ReadDecimals, Decoded, Texts, NumsOf, NumberArrayFromString;
    var parts := [MAGIC] + Decimals(NumsOf(c));
    PartsArePlain(NumsOf(c));
    SplitJoined(parts);
    JoinedHasNo(parts, BAR);
    BeforeIs(Joined(parts), BAR, Texts(c.strips));
    assert parts[1..] == Decimals(NumsOf(c));
    DecimalsAreRead(NumsOf(c));
    DecodedIs(c);
    StartsWithName(parts);
  }

  lemma PartsArePlain(nums: seq<nat>)
    ensures forall i :: 0 <= i < |[MAGIC] + Decimals(nums)| ==>
              COMMA !in ([MAGIC] + Decimals(nums))[i] && BAR !in ([MAGIC] + Decimals(nums))[i]
  {
    hide Decimal;
    forall i | 0 <= i < |[MAGIC] + Decimals(nums)|
      ensures COMMA !in ([MAGIC] + Decimals(nums))[i] && BAR !in ([MAGIC] + Decimals(nums))[i]
    {
      if i > 0 { assert AllDecimal(Decimals(nums)[i - 1]); }
    }
  }

  lemma StartsWithName(parts: seq<Codes>)
    requires parts != [] && parts[0] == MAGIC
    ensures Joined(parts) != [] && Joined(parts)[0] == LETTER_C
  {}

  // ---------- runs of one character

  function Repeated(c: Code, n: nat): (r: Codes)
    ensures |r| == n && forall i :: 0 <= i < n ==> r[i] == c
  {
    seq(n, i requires 0 <= i < n => c)
  }

  // How often the first character comes at the front, up to 64 times.
  function RunLength(s: Codes, limit: nat): (n: nat)
    requires s != [] && 0 < limit
    ensures 0 < n <= limit && n <= |s| && s[..n] == Repeated(s[0], n)
    ensures n < limit && n < |s| ==> s[n] != s[0]
    decreases limit
  {
    if limit == 1 || |s| == 1 || s[1] != s[0] then 1
    else
      var n := 1 + RunLength(s[1..], limit - 1);
      assert s[1..][..n - 1] == s[1..n];
      assert s[..n] == [s[0]] + s[1..n];
      n
  }

  function Compressed(s: Codes): Codes
    decreases |s|
  {
    if s == [] then []
    else
      var n := RunLength(s, 64);
      [s[0], n + 48] + Compressed(s[n..])
  }

  function Decompressed(s: Codes): Codes
    decreases |s|
  {
    if |s| < 2 then s
    else (if s[1] > 48 then Repeated(s[0], s[1] - 48) else []) + Decompressed(s[2..])
  }

  lemma {:induction false} CompressedIsRead(s: Codes)
    ensures Decompressed(Compressed(s)) == s
    decreases |s|
  {
    hide RunLength, Decompressed;
    if s == [] {
      NothingCompressed();
    } else {
      var n := RunLength(s, 64);
      CompressedIsRead(s[n..]);
      RunIsRead(s[0], n, Compressed(s[n..]));
      FrontAndRest(s, n);
    }
  }

  lemma NothingCompressed()
    ensures Decompressed([]) == []
  {}

  lemma FrontAndRest(s: Codes, n: nat)
    requires n <= |s|
    ensures s == s[..n] + s[n..]
  {}

  lemma RunIsRead(c: Code, n: nat, rest: Codes)
    requires 0 < n <= 64
    ensures Decompressed([c, n + 48] + rest) == Repeated(c, n) + Decompressed(rest)
  {
    assert ([c, n + 48] + rest)[2..] == rest;
  }

  // ---------- letter by letter

  // Numbers of up to 15 bits take one unit, larger ones two, with the upper bits in front.
  lemma NumsAsWritten()
    ensures WriteNum(0) == [0] && WriteNum(0x7fff) == [0x7fff] && WriteNum(0x8000) == [0xa001, 0]
    ensures WriteNum(0xfff_fffe) == [0xbfff, 0x7ffe]
  {}

  // What was written before, 16 bits to a unit, and what is written now are both read.
  lemma NumsAsRead(rest: Codes)
    ensures ReadNum([0x7fff] + rest) == NumRead(0x7fff, rest)
    ensures ReadNum([0x8001, 2] + rest) == NumRead(0x1_0002, rest)
    ensures ReadNum([0xa001, 2] + rest) == NumRead(0x8002, rest)
    ensures ReadNum([0x8001]) == CutOff
  {
    assert ([0x7fff] + rest)[1..] == rest && ([0x8001, 2] + rest)[2..] == rest && ([0xa001, 2] + rest)[2..] == rest;
  }

  // A backslash is doubled, and a surrogate becomes its four hexadecimal digits.
  lemma EscapesAsWritten()
    ensures EscapeOne(0x5c) == [0x5c, 0x5c] && EscapeOne(0x61) == [0x61]
    ensures EscapeOne(0xd83d) == [0x5c, 0x75, 0x64, 0x38, 0x33, 0x64]
    ensures EscapeOne(0xdc0f) == [0x5c, 0x75, 0x64, 0x63, 0x30, 0x66]
  {}

  // Runs are written with their lengths, counted from `0`.
  lemma RunsAsWritten()
    ensures Compressed([0x61, 0x61, 0x61, 0x62]) == [0x61, 0x33, 0x62, 0x31]
  {
    var s: Codes := [0x61, 0x61, 0x61, 0x62];
    assert s[1..] == [0x61, 0x61, 0x62] && s[2..] == [0x61, 0x62] && s[3..] == [0x62];
    assert [0x62 as Code][1..] == [];
  }

  lemma SmallDecimals()
    ensures Decimal(1) == [0x31] && Decimal(2) == [0x32] && Decimal(3) == [0x33] && Decimal(5) == [0x35]
  {}

  lemma SixJoined(a: Codes, b: Codes, c: Codes, d: Codes, e: Codes, f: Codes)
    ensures Joined([a, b, c, d, e, f])
         == a + [COMMA] + (b + [COMMA] + (c + [COMMA] + (d + [COMMA] + (e + [COMMA] + f))))
  {
    hide Joined;
    JoinedFront(e, [f]);
    JoinedFront(d, [e, f]);
    JoinedFront(c, [d, e, f]);
    JoinedFront(b, [c, d, e, f]);
    JoinedFront(a, [b, c, d, e, f]);
    assert [a] + [b, c, d, e, f] == [a, b, c, d, e, f] && [b] + [c, d, e, f] == [b, c, d, e, f];
    assert [c] + [d, e, f] == [c, d, e, f] && [d] + [e, f] == [d, e, f] && [e] + [f] == [e, f];
  }

  lemma JoinedFront(a: Codes, rest: seq<Codes>)
    requires rest != []
    ensures Joined([a] + rest) == a + [COMMA] + Joined(rest) && Joined([a]) == a
    ensures |rest| == 1 ==> Joined(rest) == rest[0]
  {
    assert ([a] + rest)[1..] == rest;
  }

  lemma OneStrip(c: CodeChangeset, s: CodeStrip)
    requires c.strips == [s]
    ensures NumsOf(c) == [c.oldLen, c.newLen, s.start, s.taken, |s.text|] && Texts(c.strips) == s.text
  {
    assert [s][1..] == [] && s.text + [] == s.text;
    assert StripNums([s]) == [s.start, s.taken, |s.text|] + StripNums([s][1..]);
  }

  // Of five characters those at 3 and 4 stay, and `a` comes behind them, in both forms. The
  // readable one is "Changeset,5,3,3,2,1|a".
  lemma ChangesetAsWritten()
    ensures Encoded(CodeChangeset(5, 3, [CodeStrip(3, 2, [0x61])])) == [0x41, 5, 5, 3, 3, 2, 1, 0x61]
  {
    hide Escape, StripNums, Texts, WriteNum;
    var s := CodeStrip(3, 2, [0x61]);
    OneStrip(CodeChangeset(5, 3, [s]), s);
    FiveNums(5, 3, 3, 2, 1);
    assert Escape([0x61]) == [0x61] by { PlainStays(0x61); }
  }

  lemma FiveNums(a: nat, b: nat, c: nat, d: nat, e: nat)
    requires a < 0x8000 && b < 0x8000 && c < 0x8000 && d < 0x8000 && e < 0x8000
    ensures WriteNum(5) + WriteNums([a, b, c, d, e]) == [5, a, b, c, d, e]
  {
    hide WriteNums;
    NumIsWritten(a, [b, c, d, e]);
    NumIsWritten(b, [c, d, e]);
    NumIsWritten(c, [d, e]);
    NumIsWritten(d, [e]);
    NumIsWritten(e, []);
    assert [a] + [b, c, d, e] == [a, b, c, d, e] && [b] + [c, d, e] == [b, c, d, e];
    assert [c] + [d, e] == [c, d, e] && [d] + [e] == [d, e] && [e] + [] == [e];
  }

  lemma NumIsWritten(n: nat, more: seq<nat>)
    requires n < 0x8000
    ensures WriteNums([n] + more) == [n] + WriteNums(more) && WriteNums([]) == []
  {
    assert ([n] + more)[1..] == more;
  }

  lemma PlainStays(c: Code)
    requires c != BACKSLASH && !IsSurrogate(c)
    ensures Escape([c]) == [c]
  {
    assert [c][1..] == [];
  }

  lemma ChangesetAsText()
    ensures EncodedText(CodeChangeset(5, 3, [CodeStrip(3, 2, [0x61])]))
         == [0x43, 0x68, 0x61, 0x6e, 0x67, 0x65, 0x73, 0x65, 0x74,
             0x2c, 0x35, 0x2c, 0x33, 0x2c, 0x33, 0x2c, 0x32, 0x2c, 0x31, 0x7c, 0x61]
  {
    hide StripNums, Texts, Decimal, Joined;
    var s := CodeStrip(3, 2, [0x61]);
    OneStrip(CodeChangeset(5, 3, [s]), s);
    SmallDecimals();
    SixJoined(MAGIC, [0x35], [0x33], [0x33], [0x32], [0x31]);
    assert [MAGIC] + Decimals([5, 3, 3, 2, 1]) == [MAGIC, [0x35], [0x33], [0x33], [0x32], [0x31]];
  }
}
