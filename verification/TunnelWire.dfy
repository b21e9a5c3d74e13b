/** Bytes and the big-endian 32-bit length field both ends of the tunnel use. */
module Bytes {
  type byte = n: nat | n < 256

  const U32_RANGE: nat := 0x1_0000_0000

  /** binary.BigEndian.PutUint32 of a value converted to uint32: the value is taken modulo 2^32. */
  function PutU32(n: int): (r: seq<byte>)
    ensures |r| == 4
  {
    var v := n % U32_RANGE;
    var v1 := v / 256;
    var v2 := v1 / 256;
    [v2 / 256, v2 % 256, v1 % 256, v % 256]
  }

  function ReadU32(b: seq<byte>): nat
    requires |b| >= 4
  {
    (((b[0] as nat) * 256 + b[1]) * 256 + b[2]) * 256 + b[3]
  }

  lemma ReadPutU32(n: int, rest: seq<byte>)
    ensures ReadU32(PutU32(n) + rest) == n % U32_RANGE
  {
    var b := PutU32(n) + rest;
    var v := n % U32_RANGE;
    assert v / 256 / 256 == (b[0] as nat) * 256 + b[1];
  }

  lemma DivMod256(q: nat, r: nat)
    requires r < 256
    ensures (q * 256 + r) / 256 == q && (q * 256 + r) % 256 == r
  {
  }

  /** Three divisions by 256 take four digits apart. */
  lemma Digits(a: byte, b: byte, c: byte, d: byte)
    ensures var v := ((a as nat * 256 + b) * 256 + c) * 256 + d;
            && v < U32_RANGE && v % 256 == d && v / 256 % 256 == c
            && v / 256 / 256 % 256 == b && v / 256 / 256 / 256 == a
  {
    var v2 := a as nat * 256 + b;
    var v1 := v2 * 256 + c;
    DivMod256(a, b);
    DivMod256(v2, c);
    DivMod256(v1, d);
  }

  lemma PutReadU32(b: seq<byte>)
    requires |b| == 4
    ensures ReadU32(b) < U32_RANGE && PutU32(ReadU32(b)) == b
  {
    Digits(b[0], b[1], b[2], b[3]);
    var v := ReadU32(b);
    assert v % U32_RANGE == v;
    assert PutU32(v) == [v / 256 / 256 / 256, v / 256 / 256 % 256, v / 256 % 256, v % 256];
  }
}

/**
 * The tunnel's wire format as printers and parsers over byte sequences. A response and a spawn frame
 * have the same layout, [head:1][len:4][data], called a block here.
 */
module TunnelWire {
  import opened Basics
  import opened Bytes

  const ST_OK: byte := 0
  const ST_ERROR: byte := 1
  const ST_MISSING: byte := 2
  const ST_BADREQ: byte := 3
  const ST_DENIED: byte := 4
  const STREAM_STDOUT: byte := 0
  const STREAM_STDERR: byte := 1
  const STREAM_EXIT: byte := 2
  const TOKEN_LEN: nat := 32

  datatype Block = Block(head: byte, data: seq<byte>)
  datatype Parsed = Incomplete | Complete(block: Block, rest: seq<byte>)

  function Print(b: Block): seq<byte> {
    [b.head] + PutU32(|b.data|) + b.data
  }

  /** [head:1][len:4][data], the length with its most significant byte first. */
  lemma PrintLayout(b: Block)
    requires |b.data| < U32_RANGE
    ensures var p, n := Print(b), |b.data|;
            && |p| == 5 + n && p[0] == b.head && p[5..] == b.data
            && p[1] == n / 0x100_0000 && p[2] == n / 0x1_0000 % 0x100 && p[3] == n / 0x100 % 0x100 && p[4] == n % 0x100
  {
    var n := |b.data|;
    assert n / 256 / 256 == n / 0x1_0000 && n / 256 / 256 / 256 == n / 0x100_0000;
  }

  /** The bytes start with a whole block. */
  ghost predicate Starts(received: seq<byte>, b: Block, rest: seq<byte>) {
    |b.data| < U32_RANGE && received == Print(b) + rest
  }

  /** The first block of a buffer, once the buffer holds all of it. */
  function Next(buf: seq<byte>): Parsed {
    if |buf| < 5 then Incomplete
    else
      var end := 5 + ReadU32(buf[1..5]);
      if |buf| < end then Incomplete else Complete(Block(buf[0], buf[5..end]), buf[end..])
  }

  lemma NextPrint(b: Block, rest: seq<byte>)
    requires |b.data| < U32_RANGE
    ensures Next(Print(b) + rest) == Complete(b, rest)
  {
    var buf := Print(b) + rest;
    assert buf[1..5] == PutU32(|b.data|);
    ReadPutU32(|b.data|, []);
    assert PutU32(|b.data|) + [] == PutU32(|b.data|);
    assert buf[5..5 + |b.data|] == b.data;
    assert buf[5 + |b.data|..] == rest;
  }

  /** The parser only ever accepts what the printer writes. */
  lemma PrintNext(buf: seq<byte>)
    requires Next(buf).Complete?
    ensures buf == Print(Next(buf).block) + Next(buf).rest
    ensures |Next(buf).block.data| < U32_RANGE
  {
    PutReadU32(buf[1..5]);
    var end := 5 + ReadU32(buf[1..5]);
    assert buf == [buf[0]] + buf[1..5] + buf[5..end] + buf[end..];
  }

  lemma NextStable(buf: seq<byte>, more: seq<byte>)
    requires Next(buf).Complete?
    ensures Next(buf + more) == Complete(Next(buf).block, Next(buf).rest + more)
  {
    assert (buf + more)[1..5] == buf[1..5];
    var end := 5 + ReadU32(buf[1..5]);
    assert (buf + more)[5..end] == buf[5..end];
    assert (buf + more)[end..] == buf[end..] + more;
  }

  lemma NextStarts(received: seq<byte>, b: Block, rest: seq<byte>)
    ensures Starts(received, b, rest) <==> Next(received) == Complete(b, rest)
  {
    if Starts(received, b, rest) {
      NextPrint(b, rest);
    }
    if Next(received).Complete? {
      PrintNext(received);
    }
  }

  // --- requests ---

  datatype Request = Request(op: byte, args: seq<byte>)

  /** writeHeader: the length field refuses an argument of 2^32 bytes or more before anything is written. */
  function PrintRequest(token: seq<byte>, r: Request): Option<seq<byte>> {
    if |r.args| >= U32_RANGE then None
    else Some(token + [r.op, 0] + PutU32(|r.args|) + r.args)
  }

  /** The token, the operation, a zero, the length with its most significant byte first, the arguments. */
  lemma RequestLayout(token: seq<byte>, r: Request)
    requires |token| == TOKEN_LEN
    ensures PrintRequest(token, r).Some? <==> |r.args| < U32_RANGE
    ensures PrintRequest(token, r).Some? ==>
              var p, n := PrintRequest(token, r).value, |r.args|;
              && |p| == 38 + n && p[..32] == token && p[32] == r.op && p[33] == 0 && p[38..] == r.args
              && p[34] == n / 0x100_0000 && p[35] == n / 0x1_0000 % 0x100 && p[36] == n / 0x100 % 0x100 && p[37] == n % 0x100
  {
    var n := |r.args|;
    assert n / 256 / 256 == n / 0x1_0000 && n / 256 / 256 / 256 == n / 0x100_0000;
    if PrintRequest(token, r).Some? {
      var p := PrintRequest(token, r).value;
      assert p[34..38] == PutU32(n);
      assert p[34] == PutU32(n)[0] && p[35] == PutU32(n)[1] && p[36] == PutU32(n)[2] && p[37] == PutU32(n)[3];
    }
  }

  /** What handleConn makes of everything a client sends: nothing if the token is wrong or bytes are missing. */
  function ReadRequest(bearer: seq<byte>, sent: seq<byte>): Option<(Request, seq<byte>)> {
    if |sent| < TOKEN_LEN + 6 || sent[..TOKEN_LEN] != bearer then None
    else
      var end := TOKEN_LEN + 6 + ReadU32(sent[TOKEN_LEN + 2..TOKEN_LEN + 6]);
      if |sent| < end then None
      else Some((Request(sent[TOKEN_LEN], sent[TOKEN_LEN + 6..end]), sent[end..]))
  }

  /** A request survives the wire, and whatever follows it is left for the operation's body. */
  lemma RequestRoundTrip(bearer: seq<byte>, token: seq<byte>, r: Request, body: seq<byte>)
    requires |token| == TOKEN_LEN
    requires PrintRequest(token, r).Some?
    ensures ReadRequest(bearer, PrintRequest(token, r).value + body)
         == if token == bearer then Some((r, body)) else None
  {
    var sent := PrintRequest(token, r).value + body;
    assert sent[..TOKEN_LEN] == token;
    assert sent[TOKEN_LEN + 2..TOKEN_LEN + 6] == PutU32(|r.args|);
    ReadPutU32(|r.args|, []);
    assert PutU32(|r.args|) + [] == PutU32(|r.args|);
    var end := TOKEN_LEN + 6 + |r.args|;
    assert sent[TOKEN_LEN + 6..end] == r.args;
    assert sent[end..] == body;
  }
}
