/** The message stream from the server: its framing, and what a client makes of it. */
module Comet {
  import opened Changesets
  import opened Layers
  import opened Zipping

  // ---------- numbers

  predicate IsDecimal(c: char) { '0' <= c <= '9' }

  predicate AllDecimal(s: string) { forall i :: 0 <= i < |s| ==> IsDecimal(s[i]) }

  function Decimal(n: nat): (s: string)
    ensures s != [] && AllDecimal(s)
  {
    if n < 10 then [('0' as int + n) as char] else Decimal(n / 10) + [('0' as int + n % 10) as char]
  }

  function DecimalValue(s: string): nat
    requires AllDecimal(s)
  {
    if s == [] then 0 else DecimalValue(s[..|s| - 1]) * 10 + (s[|s| - 1] as int - '0' as int)
  }

  lemma DecimalIs(n: nat, k: nat)
    requires k < 10
    ensures Decimal(10 * n + k) == (if n == 0 then [] else Decimal(n)) + ["0123456789"[k]]
  {}

  // `Number(s)`, for a number in decimal digits; no digits at all are 0.
  function NumberOf(s: string): Option<nat> { if AllDecimal(s) then Some(DecimalValue(s)) else None }

  lemma {:induction false} DecimalIsRead(n: nat)
    ensures DecimalValue(Decimal(n)) == n && NumberOf(Decimal(n)) == Some(n)
  {
    if n < 10 {
      assert [('0' as int + n) as char][..0] == [];
    } else {
      DecimalIsRead(n / 10);
      var s := Decimal(n / 10);
      assert (s + [('0' as int + n % 10) as char])[..|s|] == s;
    }
  }

  // ---------- fields between colons

  // What is in front of the first colon.
  function Head(s: string): (h: string)
    ensures h <= s && ':' !in h && (h == s || s[|h|] == ':')
  {
    if s == [] || s[0] == ':' then [] else [s[0]] + Head(s[1..])
  }

  predicate HasColon(s: string) { |Head(s)| < |s| }

  // What is behind it.
  function Tail(s: string): string { if HasColon(s) then s[|Head(s)| + 1..] else [] }

  lemma {:induction false} HeadOf(a: string, rest: string)
    requires ':' !in a
    ensures Head(a + [':'] + rest) == a && Tail(a + [':'] + rest) == rest && HasColon(a + [':'] + rest)
  {
    var s := a + [':'] + rest;
    if a == [] {
      assert s == [':'] + rest;
    } else {
      assert s[1..] == a[1..] + [':'] + rest && a[0] in a;
      HeadOf(a[1..], rest);
    }
  }

  lemma {:induction false} HeadGrows(s: string, more: string)
    ensures HasColon(s) ==> Head(s + more) == Head(s) && HasColon(s + more)
    ensures !HasColon(s) && HasColon(s + more) ==> |Head(s + more)| >= |s|
  {
    if s == [] {
      assert s + more == more;
    } else if s[0] != ':' {
      assert (s + more)[1..] == s[1..] + more;
      HeadGrows(s[1..], more);
    }
  }

  // ---------- messages and frames

  datatype Message = Oob(text: string) | Numbered(seqNumber: nat, isControl: bool, content: string)

  datatype Reading = NotYet | BadLength | Got(message: string, used: nat)

  // The first frame of `s`: a length, a colon, and that many characters.
  function ReadMessage(s: string): (r: Reading)
    ensures r.Got? ==> 0 < r.used <= |s|
  {
    if !HasColon(s) then NotYet
    else match NumberOf(Head(s))
      case None => BadLength
      case Some(chars) =>
        var sep := |Head(s)|;
        if |s| < sep + 1 + chars then NotYet else Got(s[sep + 1..sep + 1 + chars], sep + 1 + chars)
  }

  function ParseMessage(msg: string): Result<Message> {
    if Head(msg) == "oob" then Success(Oob(Tail(msg)))
    else match NumberOf(Head(msg))
      case None => Failure("Bad sequence number")
      case Some(seq_) =>
        if !HasColon(msg) then Failure("Bad control")
        else match NumberOf(Head(Tail(msg)))
          case None => Failure("Bad control")
          case Some(control) => Success(Numbered(seq_, control == 1, Tail(Tail(msg))))
  }

  // Messages, and how many characters they took.
  datatype Parsing = Bad | Parsed(messages: seq<Message>, used: nat)

  function ParseWireFormat(s: string): (p: Parsing)
    ensures p.Parsed? ==> p.used <= |s|
    decreases |s|
  {
    match ReadMessage(s)
    case NotYet => Parsed([], 0)
    case BadLength => Bad
    case Got(msg, used) =>
      match ParseMessage(msg)
      case Failure(_) => Bad
      case Success(m) => Followed([m], used, ParseWireFormat(s[used..]))
  }

  function Followed(ms: seq<Message>, used: nat, rest: Parsing): Parsing {
    match rest
    case Bad => Bad
    case Parsed(more, n) => Parsed(ms + more, used + n)
  }

  // ---------- a buffer that grows

  lemma ReadGrows(s: string, more: string)
    ensures ReadMessage(s).Got? ==> ReadMessage(s + more) == ReadMessage(s)
    ensures ReadMessage(s).BadLength? ==> ReadMessage(s + more).BadLength?
  {
    HeadGrows(s, more);
    if ReadMessage(s).Got? {
      var sep, used := |Head(s)|, ReadMessage(s).used;
      assert (s + more)[sep + 1..used] == s[sep + 1..used];
    }
  }

  lemma FollowedTwice(a: seq<Message>, i: nat, b: seq<Message>, j: nat, p: Parsing)
    ensures Followed(a, i, Followed(b, j, p)) == Followed(a + b, i + j, p) && Followed([], 0, p) == p
  {
    if p.Parsed? {
      assert a + (b + p.messages) == a + b + p.messages && [] + p.messages == p.messages;
    }
  }

  // Going on behind what was read, when more has come, is reading the whole.
  lemma {:induction false} ParseGrows(s: string, more: string)
    ensures ParseWireFormat(s).Bad? ==> ParseWireFormat(s + more).Bad?
    ensures var p := ParseWireFormat(s);
            p.Parsed? ==> ParseWireFormat(s + more) == Followed(p.messages, p.used, ParseWireFormat(s[p.used..] + more))
    decreases |s|
  {
    hide ReadMessage, ParseMessage;
    ReadGrows(s, more);
    var r := ReadMessage(s);
    if r.Got? && ParseMessage(r.message).Success? {
      var m, rest := ParseMessage(r.message).value, s[r.used..];
      assert (s + more)[r.used..] == rest + more;
      ParseGrows(rest, more);
      var q := ParseWireFormat(rest);
      if q.Parsed? {
        assert s[r.used + q.used..] == rest[q.used..];
        FollowedTwice([m], r.used, q.messages, q.used, ParseWireFormat(rest[q.used..] + more));
      }
    } else if r.NotYet? {
      assert s[0..] == s;
      FollowedTwice([], 0, [], 0, ParseWireFormat(s + more));
    }
  }

  // A buffer that chunks are added to, read on from the cursor after each.
  function ReadChunks(unread: string, chunks: seq<string>): Parsing
    decreases |chunks|
  {
    if chunks == [] then Parsed([], 0)
    else match ParseWireFormat(unread + chunks[0])
      case Bad => Bad
      case Parsed(ms, n) => Followed(ms, n, ReadChunks((unread + chunks[0])[n..], chunks[1..]))
  }

  function Joined(chunks: seq<string>): string { if chunks == [] then [] else chunks[0] + Joined(chunks[1..]) }

  // However the text is cut into chunks, what is read is what it holds.
  lemma {:induction false} ChunksDoNotMatter(unread: string, chunks: seq<string>)
    requires ParseWireFormat(unread) == Parsed([], 0)
    ensures ReadChunks(unread, chunks) == ParseWireFormat(unread + Joined(chunks))
    decreases |chunks|
  {
    hide ParseWireFormat;
    if chunks == [] {
      assert unread + [] == unread;
    } else {
      var s, more := unread + chunks[0], Joined(chunks[1..]);
      assert unread + Joined(chunks) == s + more;
      ParseGrows(s, more);
      var p := ParseWireFormat(s);
      if p.Parsed? {
        NothingLeft(s);
        ChunksDoNotMatter(s[p.used..], chunks[1..]);
      }
    }
  }

  // Behind what was read there is no whole frame.
  lemma {:induction false} NothingLeft(s: string)
    requires ParseWireFormat(s).Parsed?
    ensures ParseWireFormat(s[ParseWireFormat(s).used..]) == Parsed([], 0)
    decreases |s|
  {
    hide ReadMessage, ParseMessage;
    var r := ReadMessage(s);
    if r.Got? {
      var q := ParseWireFormat(s[r.used..]);
      NothingLeft(s[r.used..]);
      assert s[r.used + q.used..] == s[r.used..][q.used..];
    } else {
      assert s[0..] == s;
    }
  }

  // ---------- what the server writes

  function Payload(m: Message): string {
    match m
    case Oob(text) => "oob" + [':'] + text
    case Numbered(n, isControl, body) => Decimal(n) + [':'] + ((if isControl then "1" else "0") + [':'] + body)
  }

  function WrapBody(msg: string): string { Decimal(|msg|) + [':'] + msg }

  function Stream(ms: seq<Message>): string { if ms == [] then [] else WrapBody(Payload(ms[0])) + Stream(ms[1..]) }

  // Message 12 of a socket, a control message and one out of band, as they are sent: in front
  // of each its length.
  lemma MessageAsSent()
    ensures WrapBody(Payload(Numbered(12, false, "a:b"))) == "8:12:0:a:b"
  {
    hide Decimal, AllDecimal;
    DecimalIs(0, 8);
    DecimalIs(0, 1);
    DecimalIs(1, 2);
    assert Payload(Numbered(12, false, "a:b")) == "12:0:a:b";
  }

  lemma ControlAsSent()
    ensures WrapBody(Payload(Numbered(7, true, "kill"))) == "8:7:1:kill"
  {
    hide Decimal, AllDecimal;
    DecimalIs(0, 7);
    DecimalIs(0, 8);
    assert Payload(Numbered(7, true, "kill")) == "7:1:kill";
  }

  lemma OobAsSent()
    ensures WrapBody(Payload(Oob("hi"))) == "6:oob:hi"
  {
    hide Decimal, AllDecimal;
    DecimalIs(0, 6);
    assert Payload(Oob("hi")) == "oob:hi";
  }

  lemma NoColon(s: string)
    requires AllDecimal(s)
    ensures ':' !in s
  {}

  // Every body is read back, colons in it or not.
  lemma PayloadIsRead(m: Message)
    ensures ParseMessage(Payload(m)) == Success(m)
  {
    hide AllDecimal;
    match m
    case Oob(text) => HeadOf("oob", text);
    case Numbered(n, isControl, body) =>
      var flag := if isControl then "1" else "0";
      NoColon(Decimal(n));
      DecimalIsRead(n);
      FlagIsRead(isControl);
      HeadOf(Decimal(n), flag + [':'] + body);
      HeadOf(flag, body);
      NotOob(Decimal(n));
  }

  lemma FlagIsRead(isControl: bool)
    ensures NumberOf(if isControl then "1" else "0") == Some(if isControl then 1 else 0)
  {
    assert "1"[..0] == "" && "0"[..0] == "";
    assert DecimalValue("1") == 1 && DecimalValue("0") == 0;
  }

  lemma NotOob(s: string)
    requires AllDecimal(s)
    ensures s != "oob"
  {
    assert !AllDecimal("oob") by { assert !IsDecimal("oob"[0]); }
  }

  lemma FrameIsRead(msg: string, rest: string)
    ensures ReadMessage(WrapBody(msg) + rest) == Got(msg, |WrapBody(msg)|)
        && (WrapBody(msg) + rest)[|WrapBody(msg)|..] == rest
  {
    hide AllDecimal, Head;
    var d := Decimal(|msg|);
    NoColon(d);
    DecimalIsRead(|msg|);
    assert WrapBody(msg) + rest == d + [':'] + (msg + rest);
    HeadOf(d, msg + rest);
    var s := WrapBody(msg) + rest;
    assert s[|d| + 1..|d| + 1 + |msg|] == msg;
  }

  // Part of a frame is not read yet.
  lemma PartIsNotRead(msg: string, n: nat)
    requires n < |WrapBody(msg)|
    ensures ReadMessage(WrapBody(msg)[..n]) == NotYet
  {
    hide AllDecimal, Head;
    var d := Decimal(|msg|);
    var s := WrapBody(msg)[..n];
    NoColon(d);
    DecimalIsRead(|msg|);
    if n <= |d| {
      assert s == d[..n];
      NoColonHere(s);
    } else {
      assert s == d + [':'] + msg[..n - |d| - 1];
      HeadOf(d, msg[..n - |d| - 1]);
    }
  }

  lemma {:induction false} NoColonHere(s: string)
    requires ':' !in s
    ensures !HasColon(s)
  {
    var h := Head(s);
    assert |h| < |s| ==> s[|h|] in s;
  }

  // What a client has of the server's text so far parses to the messages that are complete.
  lemma {:induction false} PrefixIsRead(ms: seq<Message>, n: nat) returns (k: nat)
    requires n <= |Stream(ms)|
    ensures k <= |ms| && |Stream(ms[..k])| <= n
        && ParseWireFormat(Stream(ms)[..n]) == Parsed(ms[..k], |Stream(ms[..k])|)
    ensures n == |Stream(ms)| ==> k == |ms|
    decreases |ms|
  {
    hide WrapBody, Payload, ReadMessage, ParseMessage;
    if ms == [] {
      k := 0;
      EmptyIsRead();
    } else {
      var msg, rest := Payload(ms[0]), Stream(ms[1..]);
      var w := |WrapBody(msg)|;
      if n < w {
        k := 0;
        assert Stream(ms)[..n] == WrapBody(msg)[..n];
        PartIsNotRead(msg, n);
      } else {
        k := PrefixIsRead(ms[1..], n - w);
        assert Stream(ms)[..n] == WrapBody(msg) + rest[..n - w];
        FrameIsRead(msg, rest[..n - w]);
        PayloadIsRead(ms[0]);
        assert ms[..k + 1][1..] == ms[1..][..k] && ms[..k + 1][0] == ms[0] && [ms[0]] + ms[1..][..k] == ms[..k + 1];
        k := k + 1;
      }
    }
  }

  lemma EmptyIsRead()
    ensures ReadMessage("") == NotYet
  {}

  // ---------- delivery

  // The messages the server has sent: the one with number `i + 1` is at `i`.
  ghost predicate IsLog(log: seq<Message>) {
    forall i :: 0 <= i < |log| ==> log[i].Numbered? && log[i].seqNumber == i + 1
  }

  // A message of the log, or an out-of-band one.
  ghost predicate Authentic(m: Message, log: seq<Message>) {
    m.Numbered? ==> 0 < m.seqNumber <= |log| && m == log[m.seqNumber - 1]
  }

  ghost predicate AllAuthentic(ms: seq<Message>, log: seq<Message>) {
    forall i :: 0 <= i < |ms| ==> Authentic(ms[i], log)
  }

  // What `onmessage` is to be called with.
  function Contents(ms: seq<Message>): seq<Option<string>> {
    if ms == [] then []
    else
      var m := ms[|ms| - 1];
      Contents(ms[..|ms| - 1]) + if m.Numbered? && !m.isControl then [Some(m.content)] else []
  }

  lemma {:induction false} ContentsAreThere(ms: seq<Message>)
    ensures None !in Contents(ms)
  {
    if ms != [] { ContentsAreThere(ms[..|ms| - 1]); }
  }

  // Whether a message with this number is passed on; a number that is not there compares as
  // neither too high nor too low.
  predicate IsNext(seqNumber: Option<nat>, last: Option<nat>) {
    seqNumber.Some? && last.Some? ==> seqNumber.value == last.value + 1
  }

  // How many of a batch are looked at, with `last` the last number received. An out-of-band
  // message without text is taken for one without a number.
  function Handled(ms: seq<Message>, last: Option<nat>): (n: nat)
    ensures n <= |ms|
  {
    if ms == [] then 0
    else
      match ms[0]
      case Oob(text) =>
        if text == "restart-fail" then 1 else 1 + Handled(ms[1..], if text == "" then None else last)
      case Numbered(n, isControl, content) =>
        if IsNext(Some(n), last) then
          if isControl then 1 else 1 + Handled(ms[1..], Some(n))
        else if last.Some? && n <= last.value then 1 + Handled(ms[1..], last)
        else 1
  }

  class SocketClient {
    // undefined once a message without a number was passed on
    var lastReceivedSeqNumber: Option<nat>
    // what `onmessage` was called with
    var delivered: seq<Option<string>>
    var closed: bool

    // Exactly the messages up to the last that was received, in order, once each.
    ghost predicate Valid(log: seq<Message>)
      reads this
    {
      && IsLog(log) && lastReceivedSeqNumber.Some? && lastReceivedSeqNumber.value <= |log|
      && delivered == Contents(log[..lastReceivedSeqNumber.value])
    }

    // `onmessage` was called with nothing.
    ghost predicate Broken()
      reads this
    {
      None in delivered
    }

    lemma ValidIsNotBroken(log: seq<Message>)
      requires Valid(log)
      ensures !Broken()
    {
      ContentsAreThere(log[..lastReceivedSeqNumber.value]);
    }

    constructor ()
      ensures forall log: seq<Message> :: IsLog(log) ==> Valid(log)
      ensures lastReceivedSeqNumber == Some(0)
    {
      lastReceivedSeqNumber := Some(0);
      delivered := [];
      closed := false;
    }

    // Whether to go on with the batch. (After a control message that is not the order to
    // stop, nothing is returned, and the batch ends too.)
    method DataHandler(seqNumber: Option<nat>, isControl: bool, content: Option<string>, ghost log: seq<Message>)
      returns (goOn: bool)
      requires IsLog(log) && (Valid(log) || Broken()) && (isControl ==> content.Some?)
      requires seqNumber.Some? <==> content.Some?
      requires seqNumber.Some? ==> Authentic(Numbered(seqNumber.value, isControl, content.value), log)
      modifies this
      ensures Valid(log) || Broken()
      ensures Valid(log) <==> old(Valid(log)) && seqNumber.Some?
      ensures var next := IsNext(seqNumber, old(lastReceivedSeqNumber));
              && lastReceivedSeqNumber == (if next then seqNumber else old(lastReceivedSeqNumber))
              && delivered == old(delivered) + (if next && !isControl then [content] else [])
              && (goOn <==> if next then !isControl else seqNumber.value <= old(lastReceivedSeqNumber).value)
              && (closed <==> old(closed) || (next && isControl && content == Some("kill")))
    {
      if Valid(log) { ValidIsNotBroken(log); }
      goOn := false;
      var bothThere := seqNumber.Some? && lastReceivedSeqNumber.Some?;
      if bothThere && seqNumber.value > lastReceivedSeqNumber.value + 1 {
        // a gap: the channel is connected anew
        return;
      }
      if bothThere && seqNumber.value < lastReceivedSeqNumber.value + 1 { return true; }
      if seqNumber.Some? { assert log[..seqNumber.value][..seqNumber.value - 1] == log[..seqNumber.value - 1]; }
      lastReceivedSeqNumber := seqNumber;
      if !isControl {
        delivered := delivered + [content];
        goOn := true;
      } else {
        if content == Some("kill") {
          closed := true;
        }
      }
      if Valid(log) { ValidIsNotBroken(log); }
    }

    // One message of a batch.
    method HandleMessage(m: Message, ghost log: seq<Message>) returns (goOn: bool, restart: bool)
      requires IsLog(log) && (Valid(log) || Broken()) && Authentic(m, log)
      modifies this
      ensures Valid(log) || Broken()
      ensures Valid(log) <==> old(Valid(log)) && m != Oob("")
      ensures old(delivered) <= delivered && (restart <==> m == Oob("restart-fail")) && (restart ==> !goOn)
      ensures forall rest: seq<Message> :: Handled([m] + rest, old(lastReceivedSeqNumber))
                                        == 1 + if goOn then Handled(rest, lastReceivedSeqNumber) else 0
      ensures Valid(log) ==> Received(m, Number(old(lastReceivedSeqNumber)), Number(lastReceivedSeqNumber), goOn)
    {
      hide Contents;
      goOn, restart := true, false;
      match m {
        case Oob(text) =>
          if text != "" {
            if text == "restart-fail" {
              closed := true;
              goOn, restart := false, true;
            }
          } else {
            goOn := DataHandler(None, false, None, log);
          }
        case Numbered(n, isControl, content) =>
          goOn := DataHandler(Some(n), isControl, Some(content), log);
      }
      forall rest: seq<Message>
        ensures Handled([m] + rest, old(lastReceivedSeqNumber)) == 1 + if goOn
            then Handled(rest, lastReceivedSeqNumber) else 0
      {
        assert ([m] + rest)[1..] == rest;
      }
    }

    // One batch. The messages of it may be old, or leave some out; nothing comes out of order,
    // as long as no out-of-band message without text is among those that are looked at.
    method HandleBatch(messages: seq<Message>, ghost log: seq<Message>) returns (restart: bool)
      requires IsLog(log) && (Valid(log) || Broken()) && AllAuthentic(messages, log)
      modifies this
      ensures Valid(log) || Broken()
      ensures Valid(log) <==> old(Valid(log)) && Oob("") !in messages[..Handled(messages, old(lastReceivedSeqNumber))]
      ensures old(delivered) <= delivered
      ensures Valid(log) ==> Number(old(lastReceivedSeqNumber)) <= Number(lastReceivedSeqNumber)
      ensures old(Valid(log)) && Consecutive(messages, Number(old(lastReceivedSeqNumber))) ==>
                Valid(log) && Number(lastReceivedSeqNumber) >= LastOf(messages, Number(old(lastReceivedSeqNumber)))
    {
      hide Valid, Broken, Handled, IsLog;
      ghost var last0, delivered0, was := lastReceivedSeqNumber, delivered, Valid(log);
      ghost var n0 := Number(last0);
      restart := false;
      NothingBefore(messages);
      for i := 0 to |messages|
        invariant (Valid(log) || Broken()) && delivered0 <= delivered
        invariant Valid(log) <==> was && Oob("") !in messages[..i]
        invariant Handled(messages, last0) == i + Handled(messages[i..], lastReceivedSeqNumber)
        invariant Valid(log) ==> n0 <= Number(lastReceivedSeqNumber)
        invariant was && Consecutive(messages, n0)
            ==> Valid(log) && Number(lastReceivedSeqNumber) >= LastOf(messages[..i], n0)
      {
        assert Authentic(messages[i], log);
        OneMore(messages, i);
        if Consecutive(messages, n0) { StepOf(messages, n0, i); }
        var goOn;
        goOn, restart := HandleMessage(messages[i], log);
        if !goOn {
          assert Handled(messages, last0) == i + 1;
          return;
        }
      }
      NothingBehindAll(messages, lastReceivedSeqNumber);
    }

    // What has come in on a channel that the server sends `sent` on, from the cursor on; the
    // cursor that is returned is used next. Where there is none, reading starts again at the
    // front, and what was received before is passed over.
    method HandleMessages(data: string, cursor: Option<nat>, ghost sent: seq<Message>, ghost k: nat,
        ghost log: seq<Message>)
      returns (next: Option<nat>, ghost k0: nat, ghost k': nat)
      requires IsLog(log) && (Valid(log) || Broken())
      requires AllAuthentic(sent, log) && data <= Stream(sent) && AtFrame(sent, k, cursor, |data|)
      modifies this
      ensures k0 == (if cursor.Some? then k else 0) <= k' <= |sent| && AtFrame(sent, k', next, |data|)
      ensures Valid(log) || Broken()
      ensures Valid(log)
         <==> old(Valid(log)) && Oob("") !in sent[k0..k'][..Handled(sent[k0..k'], old(lastReceivedSeqNumber))]
      ensures Valid(log) ==> Number(old(lastReceivedSeqNumber)) <= Number(lastReceivedSeqNumber)
      ensures old(delivered) <= delivered
    {
      hide WrapBody, Payload, ParseWireFormat, Contents, Consecutive, LastOf, Valid, Broken, Handled, IsLog;
      var startIndex := if cursor.Some? then cursor.value else 0;
      k0 := if cursor.Some? then k else 0;
      NoFrames(sent);
      assert data == Stream(sent)[..|data|];
      var k1 := RestIsRead(sent, k0, |data|);
      var p := ParseFrom(data, startIndex);
      AuthenticPart(sent, log, k0, k0 + k1);
      var restart := HandleBatch(p.messages, log);
      next, k' := if restart then None else Some(p.used), k0 + k1;
    }
  }

  function Number(last: Option<nat>): nat { if last.Some? then last.value else 0 }

  // What a message does to the last number received.
  ghost predicate Received(m: Message, last: nat, now: nat, goOn: bool) {
    && now == (if m.Numbered? && m.seqNumber == last + 1 then m.seqNumber else last)
    && (goOn <==> if m.Oob? then m.text != "restart-fail"
        else m.seqNumber <= last || (m.seqNumber == last + 1 && !m.isControl))
  }

  lemma NothingBefore(ms: seq<Message>)
    ensures ms[..0] == [] && ms[0..] == ms
  {}

  lemma NothingBehindAll(ms: seq<Message>, last: Option<nat>)
    ensures Handled(ms[|ms|..], last) == 0 && ms[..|ms|] == ms
  {}

  lemma OneMore(ms: seq<Message>, i: nat)
    requires i < |ms|
    ensures ms[i..] == [ms[i]] + ms[i + 1..] && ms[..i + 1] == ms[..i] + [ms[i]] && ms[..i + 1][..i] == ms[..i]
  {}

  // A frame that says no more than that it is out of band: `onmessage` is called with nothing.
  lemma EmptyTextIsDelivered()
    ensures ParseWireFormat("4:oob:") == Parsed([Oob("")], 6)
    ensures Handled([Oob("")], Some(0)) == 1 && Oob("") in [Oob("")][..1]
  {
    var ms := [Oob("")];
    assert Decimal(4) == "4" && Payload(Oob("")) == "oob:" && WrapBody("oob:") == "4:oob:";
    assert ms[1..] == [];
    assert Stream(ms) == "4:oob:" + Stream([]) == "4:oob:";
    var k := PrefixIsRead(ms, 6);
    assert "4:oob:"[..6] == "4:oob:" && ms[..1] == ms;
  }

  // The cursor stands behind the first `k` frames.
  ghost predicate AtFrame(sent: seq<Message>, k: nat, cursor: Option<nat>, length: nat) {
    cursor.Some? ==> k <= |sent| && cursor.value == |Stream(sent[..k])| <= length
  }

  lemma NoFrames(sent: seq<Message>)
    ensures Stream(sent[..0]) == ""
  {}

  lemma AuthenticPart(sent: seq<Message>, log: seq<Message>, a: nat, b: nat)
    requires AllAuthentic(sent, log) && a <= b <= |sent|
    ensures AllAuthentic(sent[a..b], log)
  {}

  lemma {:induction false} StreamConcat(a: seq<Message>, b: seq<Message>)
    ensures Stream(a + b) == Stream(a) + Stream(b)
  {
    hide WrapBody, Payload;
    if a == [] {
      assert a + b == b;
      assert [] + Stream(b) == Stream(b);
    } else {
      StreamConcat(a[1..], b);
      assert (a + b)[1..] == a[1..] + b && (a + b)[0] == a[0];
      Regroup(WrapBody(Payload(a[0])), Stream(a[1..]), Stream(b));
    }
  }

  // From a cursor between two frames the messages behind it are read, as far as they are there.
  lemma RestIsRead(sent: seq<Message>, k: nat, n: nat) returns (k1: nat)
    requires k <= |sent| && |Stream(sent[..k])| <= n <= |Stream(sent)|
    ensures k + k1 <= |sent| && |Stream(sent[..k + k1])| <= n
    ensures var c := |Stream(sent[..k])|;
            Followed([], c, ParseWireFormat(Stream(sent)[..n][c..]))
                == Parsed(sent[k..k + k1], |Stream(sent[..k + k1])|)
  {
    hide WrapBody, Payload, ParseWireFormat, Stream;
    var c := |Stream(sent[..k])|;
    StreamParts(sent, k, |sent| - k);
    BehindFront(Stream(sent[..k]), Stream(sent[k..]), n);
    k1 := PrefixIsRead(sent[k..], n - c);
    StreamParts(sent, k, k1);
  }

  lemma StreamParts(sent: seq<Message>, k: nat, k1: nat)
    requires k + k1 <= |sent|
    ensures Stream(sent) == Stream(sent[..k]) + Stream(sent[k..])
    ensures sent[k..][..k1] == sent[k..k + k1] == [] + sent[k..k + k1]
    ensures |Stream(sent[..k + k1])| == |Stream(sent[..k])| + |Stream(sent[k..k + k1])|
  {
    hide Stream;
    assert sent == sent[..k] + sent[k..];
    StreamConcat(sent[..k], sent[k..]);
    assert sent[..k + k1] == sent[..k] + sent[k..k + k1];
    StreamConcat(sent[..k], sent[k..k + k1]);
  }

  lemma BehindFront(a: string, b: string, n: nat)
    requires |a| <= n <= |a| + |b|
    ensures (a + b)[..n][|a|..] == b[..n - |a|]
  {}

  // The loop over the frames; `used` is the place in the data behind the last one.
  method ParseFrom(data: string, startIndex: nat) returns (p: Parsing)
    requires startIndex <= |data|
    ensures p == Followed([], startIndex, ParseWireFormat(data[startIndex..]))
  {
    hide ReadMessage, ParseMessage;
    var msgs, readThroughIndex := [], startIndex;
    while true
      invariant readThroughIndex <= |data|
      invariant Followed(msgs, readThroughIndex, ParseWireFormat(data[readThroughIndex..]))
             == Followed([], startIndex, ParseWireFormat(data[startIndex..]))
      decreases |data| - readThroughIndex
    {
      ghost var rest := data[readThroughIndex..];
      var msgObj := ReadMessage(data[readThroughIndex..]);
      ReadBounds(rest);
      match msgObj {
        case NotYet =>
          assert msgs + [] == msgs;
          return Parsed(msgs, readThroughIndex);
        case BadLength => return Bad;
        case Got(msg, used) =>
          var m := ParseMessage(msg);
          match m {
            case Failure(e) => return Bad;
            case Success(message) =>
              assert rest[used..] == data[readThroughIndex + used..];
              FollowedTwice(msgs, readThroughIndex, [message], used, ParseWireFormat(rest[used..]));
              msgs := msgs + [message];
              readThroughIndex := readThroughIndex + used;
          }
      }
    }
  }

  lemma ReadBounds(s: string)
    ensures ReadMessage(s).Got? ==> 0 < ReadMessage(s).used <= |s|
  {}

  // A batch that leaves nothing out behind `last`, and has no control messages in it.
  ghost predicate Consecutive(ms: seq<Message>, last: nat)
    decreases |ms|
  {
    if ms == [] then true
    else
      var m := ms[|ms| - 1];
      && Consecutive(ms[..|ms| - 1], last)
      && (if m.Oob? then m.text != "restart-fail" && m.text != ""
          else !m.isControl && m.seqNumber <= LastOf(ms[..|ms| - 1], last) + 1)
  }

  // The last number reached.
  ghost function LastOf(ms: seq<Message>, last: nat): nat {
    if ms == [] then last
    else
      var m, l := ms[|ms| - 1], LastOf(ms[..|ms| - 1], last);
      if m.Numbered? && m.seqNumber == l + 1 then m.seqNumber else l
  }

  lemma {:induction false} StepOf(ms: seq<Message>, last: nat, i: nat)
    requires Consecutive(ms, last) && i < |ms|
    ensures ms[i].Numbered? ==> !ms[i].isControl && ms[i].seqNumber <= LastOf(ms[..i], last) + 1
    ensures ms[i].Oob? ==> ms[i].text != "restart-fail" && ms[i].text != ""
    decreases |ms|
  {
    var n := |ms| - 1;
    if i < n {
      assert ms[..n][..i] == ms[..i] && ms[..n][i] == ms[i];
      StepOf(ms[..n], last, i);
    }
  }
}
