/** Buffer.from(text, "utf-8"), for text without lone surrogates (RFC 3629). */
module Utf8 {
  import opened Bytes

  function EncodeChar(c: char): (b: seq<byte>)
    ensures 1 <= |b| <= 4
  {
    var n := c as int;
    if n < 0x80 then [n]
    else if n < 0x800 then [0xC0 + n / 64, 0x80 + n % 64]
    else if n < 0x1_0000 then [0xE0 + n / 4096, 0x80 + n / 64 % 64, 0x80 + n % 64]
    else [0xF0 + n / 262144, 0x80 + n / 4096 % 64, 0x80 + n / 64 % 64, 0x80 + n % 64]
  }

  function Encode(s: string): seq<byte> {
    if |s| == 0 then [] else EncodeChar(s[0]) + Encode(s[1..])
  }

  /** Characters are encoded one after the other. */
  lemma {:induction false} EncodeAppend(a: string, b: string)
    ensures Encode(a + b) == Encode(a) + Encode(b)
  {
    if |a| == 0 {
      assert a + b == b;
    } else {
      assert (a + b)[1..] == a[1..] + b;
      EncodeAppend(a[1..], b);
    }
  }

  /** ASCII text is encoded as itself. */
  lemma {:induction false} EncodeAscii(s: string)
    requires forall i: nat :: i < |s| ==> s[i] as int < 0x80
    ensures |Encode(s)| == |s| && forall i: nat :: i < |s| ==> Encode(s)[i] == s[i] as int
  {
    if |s| > 0 {
      EncodeAscii(s[1..]);
    }
  }

  /** Each character of two, three and four bytes has the layout of section 3 of RFC 3629. */
  lemma EncodeLayout(c: char)
    ensures var n, b := c as int, Encode([c]);
            if n < 0x80 then b == [n]
            else if n < 0x800 then
              |b| == 2 && 0xC0 <= b[0] < 0xE0 && 0x80 <= b[1] < 0xC0 && n == (b[0] as int - 0xC0) * 0x40 + (b[1] as int - 0x80)
            else if n < 0x1_0000 then
              && |b| == 3 && 0xE0 <= b[0] < 0xF0 && 0x80 <= b[1] < 0xC0 && 0x80 <= b[2] < 0xC0
              && n == (b[0] as int - 0xE0) * 0x1000 + (b[1] as int - 0x80) * 0x40 + (b[2] as int - 0x80)
            else
              && |b| == 4 && 0xF0 <= b[0] < 0xF8 && 0x80 <= b[1] < 0xC0 && 0x80 <= b[2] < 0xC0 && 0x80 <= b[3] < 0xC0
              && n == (b[0] as int - 0xF0) * 0x4_0000 + (b[1] as int - 0x80) * 0x1000 + (b[2] as int - 0x80) * 0x40 + (b[3] as int - 0x80)
  {
    var n := c as int;
    assert Encode([c]) == EncodeChar(c) + Encode([]);
    assert n / 4096 == n / 64 / 64 && n / 262144 == n / 64 / 64 / 64;
  }

  /** For example e acute, the euro sign and U+1F600. */
  lemma EncodeExamples()
    ensures Encode("\U{e9}") == [0xC3, 0xA9] && Encode("\U{20ac}") == [0xE2, 0x82, 0xAC]
    ensures Encode("\U{1f600}") == [0xF0, 0x9F, 0x98, 0x80]
  {
  }

  /** How many bytes the character that starts with this one takes, and which it is. */
  function Width(lead: byte): nat {
    if lead < 0x80 then 1 else if lead < 0xE0 then 2 else if lead < 0xF0 then 3 else 4
  }

  function CodePoint(b: seq<byte>): int
    requires |b| > 0 && |b| >= Width(b[0])
  {
    var lead: int := b[0];
    match Width(b[0])
    case 1 => lead
    case 2 => (lead - 0xC0) * 64 + Six(b[1])
    case 3 => ((lead - 0xE0) * 64 + Six(b[1])) * 64 + Six(b[2])
    case _ => (((lead - 0xF0) * 64 + Six(b[1])) * 64 + Six(b[2])) * 64 + Six(b[3])
  }

  /** What a continuation byte carries. */
  function Six(b: byte): int { b as int - 0x80 }

  lemma DecodeChar(c: char, rest: seq<byte>)
    ensures var b := EncodeChar(c) + rest;
            Width(b[0]) == |EncodeChar(c)| && CodePoint(b) == c as int
  {
    var n, b := c as int, EncodeChar(c) + rest;
    assert b[..|EncodeChar(c)|] == EncodeChar(c);
    assert n / 4096 == n / 64 / 64 && n / 262144 == n / 64 / 64 / 64;
  }

  /** So the bytes of a host name are those of no other. */
  lemma {:induction false} EncodeInjective(a: string, b: string)
    requires Encode(a) == Encode(b)
    ensures a == b
  {
    if |a| > 0 && |b| > 0 {
      DecodeChar(a[0], Encode(a[1..]));
      DecodeChar(b[0], Encode(b[1..]));
      assert a[0] as int == b[0] as int;
      assert Encode(a)[|EncodeChar(a[0])|..] == Encode(a[1..]) && Encode(b)[|EncodeChar(b[0])|..] == Encode(b[1..]);
      EncodeInjective(a[1..], b[1..]);
      assert a == [a[0]] + a[1..] && b == [b[0]] + b[1..];
    }
  }
}

/** The client side of RFC 1928: the CONNECT request, and the incremental parser of the proxy's replies. */
module Socks5 {
  import opened Basics
  import opened Bytes
  import opened Decimals
  import opened Utf8

  const ATYP_IPV4: byte := 1
  const ATYP_DOMAIN: byte := 3
  const ATYP_IPV6: byte := 4

  datatype Failure = BadGreeting(method_: byte) | BadVersion | Rejected(code: byte) | UnknownAddress(atyp: byte)
  datatype Outcome = Pending | Failed(why: Failure) | Connected(used: nat)

  // --- replies as a function of the bytes received so far ---

  /** The CONNECT reply at the start of the bytes, once it is complete (section 6). */
  function ReadReply(b: seq<byte>): Outcome {
    if |b| < 4 then Pending
    else if b[0] != 5 then Failed(BadVersion)
    else if b[1] != 0 then Failed(Rejected(b[1]))
    else if b[3] == ATYP_IPV4 then Within(b, 10)
    else if b[3] == ATYP_IPV6 then Within(b, 22)
    else if b[3] == ATYP_DOMAIN then if |b| < 5 then Pending else Within(b, 7 + b[4] as nat)
    else Failed(UnknownAddress(b[3]))
  }

  function Within(b: seq<byte>, replyLen: nat): Outcome {
    if |b| < replyLen then Pending else Connected(replyLen)
  }

  function Handshake(received: seq<byte>): Outcome {
    if |received| < 2 then Pending
    else if received[0] != 5 || received[1] != 0 then Failed(BadGreeting(received[1]))
    else
      match ReadReply(received[2..])
      case Connected(n) => Connected(2 + n)
      case other => other
  }

  /** The request is sent once the method selection has been received and is the expected one. */
  function Sent(request: seq<byte>, received: seq<byte>): seq<byte> {
    [5, 1, 0] + if |received| >= 2 && received[0] == 5 && received[1] == 0 then request else []
  }

  /** Once decided, more bytes change nothing. */
  lemma HandshakeStable(received: seq<byte>, more: seq<byte>)
    requires Handshake(received) != Pending
    ensures Handshake(received + more) == Handshake(received)
  {
    if |received| >= 2 {
      assert (received + more)[2..] == received[2..] + more;
    }
  }

  /** A success reply as section 6 lays it out; RSV may be anything, as the client does not look at it. */
  ghost predicate IsReply(b: seq<byte>, rsv: byte, atyp: byte, addr: seq<byte>, port: seq<byte>) {
    && b == [5, 0, rsv, atyp] + addr + port
    && |port| == 2
    && (|| (atyp == ATYP_IPV4 && |addr| == 4)
        || (atyp == ATYP_IPV6 && |addr| == 16)
        || (atyp == ATYP_DOMAIN && |addr| > 0 && |addr| == 1 + addr[0] as nat))
  }

  /** Exactly the method selection and the reply are consumed, for each address type, whatever follows. */
  lemma ConsumesReply(reply: seq<byte>, rsv: byte, atyp: byte, addr: seq<byte>, port: seq<byte>, rest: seq<byte>)
    requires IsReply(reply, rsv, atyp, addr, port)
    ensures Handshake([5, 0] + reply + rest) == Connected(2 + |reply|)
  {
    var b := reply + rest;
    assert ([5, 0] + reply + rest)[2..] == b;
    assert b == [5, 0, rsv, atyp] + (addr + port + rest);
    if atyp == ATYP_DOMAIN {
      assert b[4] == addr[0];
    }
  }

  /** And the client connects on nothing else. */
  lemma ConnectedOnlyByReply(received: seq<byte>) returns (rsv: byte, atyp: byte, addr: seq<byte>, port: seq<byte>)
    requires Handshake(received).Connected?
    ensures var n := Handshake(received).used;
            && 2 < n <= |received| && received[..2] == [5, 0]
            && IsReply(received[2..n], rsv, atyp, addr, port)
  {
    var n := Handshake(received).used;
    var reply := received[2..n];
    assert reply == received[2..][..n - 2];
    rsv, atyp, addr, port := reply[2], reply[3], reply[4..|reply| - 2], reply[|reply| - 2..];
    if atyp == ATYP_DOMAIN {
      assert received[2..][4] == reply[4] == addr[0];
    }
    assert reply == [5, 0, rsv, atyp] + addr + port;
  }

  // --- what the bytes received mean ---

  /** The bytes are a success reply and what follows it. */
  ghost predicate Replied(b: seq<byte>, rest: seq<byte>) {
    exists reply: seq<byte>, rsv, atyp, addr, port :: IsReply(reply, rsv, atyp, addr, port) && b == reply + rest
  }

  /** The method selection comes before it. */
  ghost predicate Answered(b: seq<byte>, rest: seq<byte>) {
    |b| >= 2 && b[..2] == [5, 0] && Replied(b[2..], rest)
  }

  /** A reply is decided by its fixed header, or else by its whole length. */
  ghost predicate Incomplete(b: seq<byte>) {
    || |b| < 4
    || (b[..2] == [5, 0] && b[3] == ATYP_IPV4 && |b| < 10)
    || (b[..2] == [5, 0] && b[3] == ATYP_IPV6 && |b| < 22)
    || (b[..2] == [5, 0] && b[3] == ATYP_DOMAIN && (|b| == 4 || |b| < 7 + b[4] as nat))
  }

  lemma ReplyMeaning(b: seq<byte>)
    ensures ReadReply(b) == Failed(BadVersion) <==> |b| >= 4 && b[0] != 5
    ensures forall code :: ReadReply(b) == Failed(Rejected(code)) <==> |b| >= 4 && b[0] == 5 && b[1] == code && code != 0
    ensures forall a :: ReadReply(b) == Failed(UnknownAddress(a)) <==>
              |b| >= 4 && b[..2] == [5, 0] && b[3] == a && a != ATYP_IPV4 && a != ATYP_DOMAIN && a != ATYP_IPV6
    ensures forall m :: ReadReply(b) != Failed(BadGreeting(m))
    ensures ReadReply(b) == Pending <==> Incomplete(b)
  {
  }

  lemma RepliedConnects(b: seq<byte>, rest: seq<byte>)
    requires Replied(b, rest)
    ensures ReadReply(b).Connected? && ReadReply(b).used <= |b| && rest == b[ReadReply(b).used..]
  {
    var reply: seq<byte>, rsv, atyp, addr, port :| IsReply(reply, rsv, atyp, addr, port) && b == reply + rest;
    ConsumesReply(reply, rsv, atyp, addr, port, rest);
    assert ([5, 0] + reply + rest)[2..] == b;
    assert b[|reply|..] == rest;
  }

  lemma ConnectsReplied(b: seq<byte>)
    requires ReadReply(b).Connected?
    ensures var n := ReadReply(b).used; n <= |b| && Replied(b, b[n..])
  {
    assert ([5, 0] + b)[2..] == b;
    var n := ReadReply(b).used;
    var rsv, atyp, addr, port := ConnectedOnlyByReply([5, 0] + b);
    assert ([5, 0] + b)[2..2 + n] == b[..n];
    assert b == b[..n] + b[n..];
  }

  lemma RepliedIs(b: seq<byte>, rest: seq<byte>)
    ensures Replied(b, rest) <==> ReadReply(b).Connected? && ReadReply(b).used <= |b| && rest == b[ReadReply(b).used..]
  {
    if Replied(b, rest) {
      RepliedConnects(b, rest);
    }
    if ReadReply(b).Connected? {
      ConnectsReplied(b);
    }
  }

  lemma AnsweredIs(b: seq<byte>, rest: seq<byte>)
    ensures Answered(b, rest) <==> Handshake(b).Connected? && Handshake(b).used <= |b| && rest == b[Handshake(b).used..]
  {
    if |b| >= 2 && b[0] == 5 && b[1] == 0 {
      RepliedIs(b[2..], rest);
      if ReadReply(b[2..]).Connected? && ReadReply(b[2..]).used <= |b| - 2 {
        assert b[2..][ReadReply(b[2..]).used..] == b[2 + ReadReply(b[2..]).used..];
      }
    }
  }

  // --- what is still open ---

  /** No byte received so far is one that a success cannot have. */
  ghost predicate Clean(b: seq<byte>) {
    && (|b| > 0 ==> b[0] == 5) && (|b| > 1 ==> b[1] == 0)
    && (|b| > 2 ==> b[2] == 5) && (|b| > 3 ==> b[3] == 0)
    && (|b| > 5 ==> b[5] == ATYP_IPV4 || b[5] == ATYP_DOMAIN || b[5] == ATYP_IPV6)
  }

  ghost predicate CanConnect(b: seq<byte>) {
    exists more, rest :: Answered(b + more, rest)
  }

  function Zeros(n: nat): seq<byte> {
    seq(n, _ => 0)
  }

  /** What a proxy could send next. */
  ghost function Completion(b: seq<byte>): seq<byte> {
    if |b| < 6 then ([5, 0, 5, 0, 0, ATYP_IPV4] + Zeros(6))[|b|..]
    else if b[5] == ATYP_IPV4 then Zeros(12)
    else if b[5] == ATYP_IPV6 then Zeros(24)
    else Zeros(9 + 256)
  }

  lemma CompletionConnects(b: seq<byte>)
    requires Clean(b)
    ensures Handshake(b + Completion(b)).Connected? && Handshake(b + Completion(b)).used <= |b + Completion(b)|
  {
    var c := b + Completion(b);
    assert |c| >= 12 && c[0] == 5 && c[1] == 0 && c[2] == 5 && c[3] == 0;
  }

  /** A connection is still possible exactly while every byte is right: no other handshake is ever left to end well. */
  lemma CanConnectExactly(b: seq<byte>)
    ensures CanConnect(b) <==> Clean(b)
  {
    if more, rest :| Answered(b + more, rest) {
      AnsweredIs(b + more, rest);
      var c := b + more;
      assert forall i: nat :: i < |b| ==> c[i] == b[i];
      assert c[2..][0] == c[2] && c[2..][1] == c[3] && c[2..][3] == c[5];
    }
    if Clean(b) {
      CompletionConnects(b);
      var c := b + Completion(b);
      AnsweredIs(c, c[Handshake(c).used..]);
    }
  }

  /** The handshake waits for the end of a reply it has begun to read, and until then also for a wrong one. */
  lemma HandshakeMeaning(b: seq<byte>)
    ensures forall rest :: Answered(b, rest) <==>
              Handshake(b).Connected? && Handshake(b).used <= |b| && rest == b[Handshake(b).used..]
    ensures forall m :: Handshake(b) == Failed(BadGreeting(m)) <==> |b| >= 2 && (b[0] != 5 || b[1] != 0) && m == b[1]
    ensures Handshake(b) == Failed(BadVersion) <==> |b| >= 6 && b[..2] == [5, 0] && b[2] != 5
    ensures forall code :: Handshake(b) == Failed(Rejected(code)) <==>
              |b| >= 6 && b[..3] == [5, 0, 5] && b[3] == code && code != 0
    ensures forall a :: Handshake(b) == Failed(UnknownAddress(a)) <==>
              |b| >= 6 && b[..4] == [5, 0, 5, 0] && b[5] == a && a != ATYP_IPV4 && a != ATYP_DOMAIN && a != ATYP_IPV6
    ensures Handshake(b) == Pending <==> |b| < 2 || (b[..2] == [5, 0] && Incomplete(b[2..]))
    ensures Handshake(b).Failed? ==> !CanConnect(b)
    ensures Handshake(b) == Pending ==> (CanConnect(b) <==> Clean(b))
  {
    forall rest
      ensures Answered(b, rest) <==> Handshake(b).Connected? && Handshake(b).used <= |b| && rest == b[Handshake(b).used..]
    {
      AnsweredIs(b, rest);
    }
    CanConnectExactly(b);
    if |b| >= 2 {
      ReplyMeaning(b[2..]);
    }
  }

  /** A wrong first byte is not looked at before the second, nor a wrong reply before its fourth. */
  lemma WrongAndPending(b: seq<byte>, more: seq<byte>)
    requires Handshake(b) == Pending && !CanConnect(b)
    ensures |b| == 1 || 3 <= |b| < 6
    ensures |b + more| >= 6 ==> Handshake(b + more).Failed?
  {
    CanConnectExactly(b);
    var c := b + more;
    assert forall i: nat :: i < |b| ==> c[i] == b[i];
    if |c| >= 6 {
      assert c[2..][0] == c[2] && c[2..][1] == c[3];
    }
  }

  /** So there are bytes that no continuation can turn into a connection and that fail nothing yet. */
  lemma WrongVersionHeld()
    ensures Handshake([4]) == Pending && !CanConnect([4])
    ensures Handshake([5, 0, 5, 5]) == Pending && !CanConnect([5, 0, 5, 5])
  {
    CanConnectExactly([4]);
    CanConnectExactly([5, 0, 5, 5]);
  }

  // --- the parser ---

  datatype Phase = Greeting | Connect | Done

  /** socks5Connect's state, and the consumer's side of the socket it resolves to. */
  class Client {
    const request: seq<byte>
    var phase: Phase
    var buf: seq<byte>
    var failure: Option<Failure>
    var sent: seq<byte>
    var delivered: seq<byte>      // tunnelled bytes handed to the consumer
    ghost var received: seq<byte> // everything the proxy has sent

    ghost predicate Valid()
      reads this
    {
      && sent == Sent(request, received)
      && match Handshake(received)
         case Pending =>
           && failure == None && delivered == []
           && (if |received| < 2 then phase == Greeting && buf == received else phase == Connect && buf == received[2..])
         case Failed(why) => phase != Done && failure == Some(why) && delivered == []
         case Connected(n) => phase == Done && failure == None && n <= |received| && delivered == received[n..]
    }

    constructor (request: seq<byte>)
      ensures Valid() && received == [] && this.request == request
    {
      this.request := request;
      phase, buf, failure, sent, delivered, received := Greeting, [], None, [5, 1, 0], [], [];
    }

    method ProcessGreeting() returns (more: bool)
      requires phase == Greeting && failure == None
      modifies this`phase, this`buf, this`failure, this`sent
      ensures more <==> |old(buf)| >= 2 && old(buf)[0] == 5 && old(buf)[1] == 0
      ensures more ==> phase == Connect && buf == old(buf)[2..] && sent == old(sent) + request && failure == None
      ensures !more ==> phase == Greeting && buf == old(buf) && sent == old(sent)
      ensures !more ==> failure == if |buf| < 2 then None else Some(BadGreeting(buf[1]))
    {
      if |buf| < 2 { return false; }
      if buf[0] != 5 || buf[1] != 0 {
        failure := Some(BadGreeting(buf[1]));
        return false;
      }
      buf := buf[2..];
      sent := sent + request;
      phase := Connect;
      more := true;
    }

    /** Always ends the turn: the reply is incomplete, refused, or done with. */
    method ProcessConnect()
      requires phase == Connect && failure == None && delivered == []
      modifies this`phase, this`failure, this`delivered
      ensures phase == Done || (phase == Connect && delivered == [])
      ensures forall rest :: Replied(buf, rest) <==> phase == Done && delivered == rest
      ensures failure == Some(BadVersion) <==> |buf| >= 4 && buf[0] != 5
      ensures forall code :: failure == Some(Rejected(code)) <==> |buf| >= 4 && buf[0] == 5 && buf[1] == code && code != 0
      ensures forall a :: failure == Some(UnknownAddress(a)) <==>
                |buf| >= 4 && buf[..2] == [5, 0] && buf[3] == a && a != ATYP_IPV4 && a != ATYP_DOMAIN && a != ATYP_IPV6
      ensures phase == Connect && failure == None <==> Incomplete(buf)
      ensures match ReadReply(buf)
              case Pending => phase == Connect && failure == None && delivered == []
              case Failed(why) => phase == Connect && failure == Some(why) && delivered == []
              case Connected(n) => phase == Done && failure == None && n <= |buf| && delivered == buf[n..]
    {
      ReplyMeaning(buf);
      forall rest
        ensures Replied(buf, rest) <==> ReadReply(buf).Connected? && ReadReply(buf).used <= |buf| && rest == buf[ReadReply(buf).used..]
      {
        RepliedIs(buf, rest);
      }
      if |buf| < 4 { return; }
      if buf[0] != 5 { failure := Some(BadVersion); return; }
      if buf[1] != 0 { failure := Some(Rejected(buf[1])); return; }
      var atyp := buf[3];
      var replyLen;
      if atyp == ATYP_IPV4 {
        replyLen := 4 + 4 + 2;
      } else if atyp == ATYP_IPV6 {
        replyLen := 4 + 16 + 2;
      } else if atyp == ATYP_DOMAIN {
        if |buf| < 5 { return; }
        replyLen := 4 + 1 + buf[4] as int + 2;
      } else {
        failure := Some(UnknownAddress(atyp));
        return;
      }
      if |buf| < replyLen { return; }
      phase := Done;
      delivered := buf[replyLen..];
    }

    method OnData(chunk: seq<byte>)
      requires Valid()
      modifies this
      ensures Valid() && received == old(received) + chunk
    {
      ghost var before := received;
      received := received + chunk;
      if failure.Some? {
        HandshakeStable(before, chunk);
        return;
      }
      if phase == Done {
        HandshakeStable(before, chunk);
        delivered := delivered + chunk;
        return;
      }
      buf := buf + chunk;
      if phase == Greeting {
        var more := ProcessGreeting();
        if !more { return; }
      }
      assert buf == received[2..];
      ProcessConnect();
    }
  }

  /**
   * The outcome is a function of the bytes alone, for every chunking; on success the consumer gets exactly
   * what follows the reply; and the proxy has been sent the greeting, and then the request if it was accepted.
   */
  method RunHandshake(request: seq<byte>, chunks: seq<seq<byte>>)
    returns (connected: bool, failure: Option<Failure>, sent: seq<byte>, delivered: seq<byte>)
    ensures var b := Flatten(chunks);
            && sent == [5, 1, 0] + (if |b| >= 2 && b[..2] == [5, 0] then request else [])
            && (connected ==> failure == None) && (!connected ==> delivered == [])
            && (forall rest :: Answered(b, rest) <==> connected && delivered == rest)
            && (forall m :: failure == Some(BadGreeting(m)) <==> |b| >= 2 && (b[0] != 5 || b[1] != 0) && m == b[1])
            && (failure == Some(BadVersion) <==> |b| >= 6 && b[..2] == [5, 0] && b[2] != 5)
            && (forall code :: failure == Some(Rejected(code)) <==> |b| >= 6 && b[..3] == [5, 0, 5] && b[3] == code && code != 0)
            && (forall a :: failure == Some(UnknownAddress(a)) <==>
                  |b| >= 6 && b[..4] == [5, 0, 5, 0] && b[5] == a && a != ATYP_IPV4 && a != ATYP_DOMAIN && a != ATYP_IPV6)
            && (!connected && failure == None <==> |b| < 2 || (b[..2] == [5, 0] && Incomplete(b[2..])))
            && (CanConnect(b) <==> Clean(b))
            && (failure.Some? ==> !CanConnect(b))
  {
    HandshakeMeaning(Flatten(chunks));
    CanConnectExactly(Flatten(chunks));
    var client := new Client(request);
    var i := 0;
    while i < |chunks|
      invariant i <= |chunks| && client.Valid() && client.request == request && fresh(client)
      invariant client.received == Flatten(chunks[..i])
    {
      FlattenSnoc(chunks[..i], chunks[i]);
      assert chunks[..i] + [chunks[i]] == chunks[..i + 1];
      client.OnData(chunks[i]);
      i := i + 1;
    }
    assert chunks[..i] == chunks;
    connected, failure, sent, delivered := client.phase == Done, client.failure, client.sent, client.delivered;
  }

  // --- the request ---

  /** JavaScript's white space and line terminators. */
  predicate Space(c: char) {
    || c == ' ' || '\t' <= c <= '\r' || c == '\U{a0}' || c == '\U{1680}' || '\U{2000}' <= c <= '\U{200a}'
    || c == '\U{2028}' || c == '\U{2029}' || c == '\U{202f}' || c == '\U{205f}' || c == '\U{3000}' || c == '\U{feff}'
  }

  function SkipSpace(s: string): string {
    if |s| > 0 && Space(s[0]) then SkipSpace(s[1..]) else s
  }

  function LeadingDigits(s: string): (d: string)
    ensures d <= s
    ensures forall i :: 0 <= i < |d| ==> IsDigit(d[i])
  {
    if |s| > 0 && IsDigit(s[0]) then [s[0]] + LeadingDigits(s[1..]) else ""
  }

  /** parseInt(s, 10): leading white space and a sign are allowed, and anything after the digits is ignored. */
  function JsParseInt(s: string): Option<int> {
    var t := SkipSpace(s);
    var negative := |t| > 0 && t[0] == '-';
    var digits := LeadingDigits(Unsigned(t));
    if digits == "" then None else Some(if negative then -(ParseInt(digits) as int) else ParseInt(digits))
  }

  /** A text that parseInt reads as n: white space, a sign or none, all the digits that follow, and anything. */
  ghost predicate Reads(s: string, white: string, sign: string, digits: string, rest: string, n: int) {
    && s == white + sign + digits + rest
    && (forall i: nat :: i < |white| ==> Space(white[i])) && (sign == "" || sign == "+" || sign == "-")
    && AllDigits(digits) && (|rest| > 0 ==> !IsDigit(rest[0]))
    && n == if sign == "-" then -(ParseInt(digits) as int) else ParseInt(digits)
  }

  lemma {:induction false} SkipSpaceWhite(white: string, t: string)
    requires forall i: nat :: i < |white| ==> Space(white[i])
    requires |t| > 0 ==> !Space(t[0])
    ensures SkipSpace(white + t) == t
  {
    if |white| > 0 {
      assert (white + t)[1..] == white[1..] + t;
      SkipSpaceWhite(white[1..], t);
    } else {
      assert white + t == t;
    }
  }

  lemma {:induction false} SkipSpaceSplits(s: string) returns (white: string)
    ensures s == white + SkipSpace(s) && forall i: nat :: i < |white| ==> Space(white[i])
    ensures |SkipSpace(s)| > 0 ==> !Space(SkipSpace(s)[0])
  {
    if |s| > 0 && Space(s[0]) {
      var rest := SkipSpaceSplits(s[1..]);
      white := [s[0]] + rest;
    } else {
      white := "";
    }
  }

  lemma {:induction false} LeadingDigitsThen(d: string, rest: string)
    requires forall i: nat :: i < |d| ==> IsDigit(d[i])
    requires |rest| > 0 ==> !IsDigit(rest[0])
    ensures LeadingDigits(d + rest) == d
  {
    if |d| > 0 {
      assert (d + rest)[1..] == d[1..] + rest;
      LeadingDigitsThen(d[1..], rest);
    } else {
      assert d + rest == rest;
    }
  }

  lemma {:induction false} LeadingDigitsMost(s: string)
    ensures var d := LeadingDigits(s); |d| < |s| ==> !IsDigit(s[|d|])
  {
    if |s| > 0 && IsDigit(s[0]) {
      LeadingDigitsMost(s[1..]);
    }
  }

  function Unsigned(t: string): string {
    if |t| > 0 && t[0] in "+-" then t[1..] else t
  }

  lemma SignSplits(t: string) returns (sign: string)
    ensures t == sign + Unsigned(t) && (sign == "" || sign == "+" || sign == "-")
    ensures sign == "-" <==> |t| > 0 && t[0] == '-'
  {
    sign := if |t| > 0 && t[0] in "+-" then [t[0]] else "";
  }

  lemma SignThen(sign: string, u: string)
    requires sign == "" || sign == "+" || sign == "-"
    requires |u| > 0 && IsDigit(u[0])
    ensures Unsigned(sign + u) == u && !Space((sign + u)[0]) && ((sign + u)[0] == '-' <==> sign == "-")
  {
    assert sign == "" ==> sign + u == u;
  }

  lemma JsParseIntReads(s: string, white: string, sign: string, digits: string, rest: string, n: int)
    requires Reads(s, white, sign, digits, rest, n)
    ensures JsParseInt(s) == Some(n)
  {
    Regroup(white, sign, digits, rest);
    SignThen(sign, digits + rest);
    SkipSpaceWhite(white, sign + (digits + rest));
    LeadingDigitsThen(digits, rest);
  }

  lemma Regroup(a: string, b: string, c: string, d: string)
    ensures a + (b + (c + d)) == a + b + c + d
  {
  }

  lemma ReadsJsParseInt(s: string) returns (white: string, sign: string, digits: string, rest: string)
    requires JsParseInt(s).Some?
    ensures Reads(s, white, sign, digits, rest, JsParseInt(s).value)
  {
    white := SkipSpaceSplits(s);
    var t := SkipSpace(s);
    sign := SignSplits(t);
    digits := LeadingDigits(Unsigned(t));
    rest := Unsigned(t)[|digits|..];
    LeadingDigitsMost(Unsigned(t));
    Regroup(white, sign, digits, rest);
    assert Unsigned(t) == digits + rest;
  }

  /** parseInt told by its texts. */
  lemma JsParseIntExactly(s: string, n: int)
    ensures JsParseInt(s) == Some(n) <==> exists white, sign, digits, rest :: Reads(s, white, sign, digits, rest, n)
  {
    if JsParseInt(s) == Some(n) {
      var white, sign, digits, rest := ReadsJsParseInt(s);
    }
    if white, sign, digits, rest :| Reads(s, white, sign, digits, rest, n) {
      JsParseIntReads(s, white, sign, digits, rest, n);
    }
  }

  predicate IsOctet(s: string) {
    var n := JsParseInt(s);
    n.Some? && 0 <= n.value <= 255
  }

  predicate IsQuad(host: string) {
    var parts := Split(host, '.');
    |parts| == 4 && forall i :: 0 <= i < 4 ==> IsOctet(parts[i])
  }

  predicate Denotes(s: string, octet: byte) {
    JsParseInt(s) == Some(octet as int)
  }

  method ParseIPv4(host: string) returns (addr: Option<seq<byte>>)
    ensures addr.Some? <==> IsQuad(host)
    ensures addr.Some? ==> |addr.value| == 4 && forall i :: 0 <= i < 4 ==> JsParseInt(Split(host, '.')[i]) == Some(addr.value[i])
  {
    var parts := Split(host, '.');
    if |parts| != 4 { return None; }
    var buf := new byte[4];
    var i := 0;
    while i < 4
      invariant i <= 4
      invariant forall j :: 0 <= j < i ==> Denotes(parts[j], buf[j])
    {
      var octet := JsParseInt(parts[i]);
      if octet == None || octet.value < 0 || octet.value > 255 {
        assert !IsOctet(parts[i]);
        return None;
      }
      buf[i] := octet.value;
      assert Denotes(parts[i], buf[i]);
      i := i + 1;
    }
    addr := Some(buf[..]);
  }

  /** buildConnectRequest; no result where writeUInt16BE throws on the port. */
  method BuildConnectRequest(host: string, port: int) returns (b: Option<seq<byte>>)
    ensures b.Some? <==> 0 <= port < 0x1_0000
    ensures b.Some? && IsQuad(host) ==>
              && |b.value| == 10 && b.value[..4] == [5, 1, 0, 1] && port == b.value[8] as int * 256 + b.value[9] as int
              && forall i :: 0 <= i < 4 ==> JsParseInt(Split(host, '.')[i]) == Some(b.value[4 + i])
    ensures b.Some? && !IsQuad(host) ==>
              var n := |b.value| - 2;
              && n >= 5 && b.value[..4] == [5, 1, 0, 3] && b.value[4] == |Encode(host)| % 256
              && b.value[5..n] == Encode(host) && port == b.value[n] as int * 256 + b.value[n + 1] as int
    ensures b.Some? && IsQuad(host) ==>
              var d := DecodeRequest(b.value);
              && d.Some? && d.value.target.IPv4? && d.value.port == port && d.value.rest == []
              && forall i :: 0 <= i < 4 ==> JsParseInt(Split(host, '.')[i]) == Some(d.value.target.addr[i])
    ensures b.Some? && !IsQuad(host) ==>
              (DecodeRequest(b.value) == Some(Connecting(Domain(Encode(host)), port, [])) <==> |Encode(host)| <= 255)
  {
    if port < 0 || port >= 0x1_0000 { return None; }
    var portBuf: seq<byte> := [port / 256, port % 256];
    var ipv4 := ParseIPv4(host);
    if ipv4.Some? {
      b := Some([5, 1, 0, ATYP_IPV4] + ipv4.value + portBuf);
      assert b.value[4..8] == ipv4.value;
      assert b.value[8..10] == portBuf;
      return;
    }
    var hostBuf := Encode(host);
    b := Some([5, 1, 0, ATYP_DOMAIN, |hostBuf| % 256] + hostBuf + portBuf);
    assert b.value[5..|b.value| - 2] == hostBuf;
    DomainRequest(hostBuf, portBuf);
  }

  lemma DomainRequest(name: seq<byte>, port: seq<byte>)
    requires |port| == 2
    ensures DecodeRequest([5, 1, 0, ATYP_DOMAIN, |name| % 256] + name + port)
              == Some(Connecting(Domain(name), port[0] as nat * 256 + port[1], []))
       <==> |name| <= 255
  {
    var b, n := [5, 1, 0, ATYP_DOMAIN, |name| % 256] + name + port, |name| % 256;
    if |name| <= 255 {
      assert b[5..5 + n] == name;
      assert b[5 + n] == port[0] && b[6 + n] == port[1];
      assert b[7 + n..] == [];
    } else {
      assert |name| != n;
    }
  }

  /** What a proxy reads, section 4: command CONNECT to an IPv4 address or a domain name. */
  datatype Target = IPv4(addr: seq<byte>) | Domain(name: seq<byte>)
  datatype Connecting = Connecting(target: Target, port: nat, rest: seq<byte>)

  function DecodeRequest(b: seq<byte>): (r: Option<Connecting>)
    ensures r.Some? && r.value.target.IPv4? ==> |r.value.target.addr| == 4
  {
    if |b| < 5 || b[..3] != [5, 1, 0] then None
    else if b[3] == ATYP_IPV4 && |b| >= 10 then
      Some(Connecting(IPv4(b[4..8]), b[8] as nat * 256 + b[9], b[10..]))
    else if b[3] == ATYP_DOMAIN && |b| >= 7 + b[4] as nat then
      var n := b[4] as nat;
      Some(Connecting(Domain(b[5..5 + n]), b[5 + n] as nat * 256 + b[6 + n], b[7 + n..]))
    else None
  }

  lemma {:induction false} LeadingDigitsAll(s: string)
    requires AllDigits(s)
    ensures LeadingDigits(s) == s
  {
    if |s| > 1 {
      LeadingDigitsAll(s[1..]);
    }
    assert [s[0]] + s[1..] == s;
  }

  lemma {:induction false} OctetText(n: byte)
    ensures JsParseInt(Decimal(n)) == Some(n as int) && '.' !in Decimal(n)
  {
    var text := Decimal(n);
    ParseDecimal(n);
    LeadingDigitsAll(text);
    assert IsDigit(text[0]);
    assert SkipSpace(text) == text;
  }

  /** A dotted quad in the usual notation is sent as the address it denotes. */
  lemma QuadOctets(a: seq<byte>)
    requires |a| == 4
    ensures var host := Join([Decimal(a[0]), Decimal(a[1]), Decimal(a[2]), Decimal(a[3])], ".");
            && IsQuad(host)
            && forall i :: 0 <= i < 4 ==> JsParseInt(Split(host, '.')[i]) == Some(a[i])
  {
    var parts := [Decimal(a[0]), Decimal(a[1]), Decimal(a[2]), Decimal(a[3])];
    forall i | 0 <= i < 4
      ensures JsParseInt(parts[i]) == Some(a[i] as int) && '.' !in parts[i]
    {
      OctetText(a[i]);
      assert parts[i] == Decimal(a[i]);
    }
    SplitJoin(parts, '.');
  }
}
