/** The client's incremental parsers, and what they rebuild from a byte stream cut into arbitrary chunks. */
module TunnelClient {
  import opened Basics
  import opened Bytes
  import opened TunnelWire

  // --- response header ---

  /** readResponse: accumulate chunks until the header and its inline body are there. */
  class ResponseReader {
    var buf: seq<byte>
    var need: nat
    var status: byte
    var settled: bool

    ghost predicate Valid()
      reads this
    {
      && need == (if |buf| < 5 then 5 else 5 + ReadU32(buf[1..5]))
      && (|buf| >= 5 ==> status == buf[0])
      && settled == Next(buf).Complete?
    }

    constructor ()
      ensures Valid() && buf == [] && !settled
    {
      buf, need, status, settled := [], 5, 0, false;
    }

    method OnData(chunk: seq<byte>)
      requires Valid() && !settled
      modifies this
      ensures Valid() && buf == old(buf) + chunk
    {
      buf := buf + chunk;
      if |buf| >= 5 && need == 5 {
        status := buf[0];
        need := 5 + ReadU32(buf[1..]);
        assert buf[1..][..4] == buf[1..5];
      } else if |old(buf)| >= 5 {
        assert buf[1..5] == old(buf)[1..5];
      }
      if |buf| >= need {
        settled := true;
      }
    }

    method Result() returns (b: Block, rest: seq<byte>)
      requires Valid() && settled
      ensures Next(buf) == Complete(b, rest)
    {
      b, rest := Block(status, buf[5..need]), buf[need..];
    }
  }

  // --- spawn frames ---

  /** What the three callbacks have been given so far. */
  datatype Streams = Streams(out: seq<byte>, err: seq<byte>, exit: Option<nat>)
  datatype Frames = Frames(seen: Streams, buf: seq<byte>)

  function ExitCode(data: seq<byte>): nat {
    if |data| >= 4 then ReadU32(data) else 0
  }

  /** All the complete frames of the buffer, up to and including an exit frame; unknown tags are skipped. */
  function Drain(f: Frames): (r: Frames)
    ensures f.seen.out <= r.seen.out && f.seen.err <= r.seen.err
    decreases |f.buf|
  {
    match Next(f.buf)
    case Incomplete => f
    case Complete(b, rest) =>
      if b.head == STREAM_STDOUT then Drain(Frames(f.seen.(out := f.seen.out + b.data), rest))
      else if b.head == STREAM_STDERR then Drain(Frames(f.seen.(err := f.seen.err + b.data), rest))
      else if b.head == STREAM_EXIT then Frames(f.seen.(exit := Some(ExitCode(b.data))), rest)
      else Drain(Frames(f.seen, rest))
  }

  /** Bytes that arrive after a drain change nothing that was already reported. */
  lemma {:induction false} DrainMore(f: Frames, more: seq<byte>)
    requires f.seen.exit == None
    ensures var d := Drain(f);
            Drain(f.(buf := f.buf + more)) == (if d.seen.exit == None then Drain(d.(buf := d.buf + more)) else d.(buf := d.buf + more))
    decreases |f.buf|
  {
    if Next(f.buf).Complete? {
      NextStable(f.buf, more);
      var Complete(b, rest) := Next(f.buf);
      if b.head == STREAM_STDOUT {
        DrainMore(Frames(f.seen.(out := f.seen.out + b.data), rest), more);
      } else if b.head == STREAM_STDERR {
        DrainMore(Frames(f.seen.(err := f.seen.err + b.data), rest), more);
      } else if b.head != STREAM_EXIT {
        DrainMore(Frames(f.seen, rest), more);
      }
    }
  }

  /** The parser after more bytes have arrived and been drained. */
  function Fed(f: Frames, bytes: seq<byte>): Frames {
    Drain(f.(buf := f.buf + bytes))
  }

  lemma FedTwice(f: Frames, a: seq<byte>, b: seq<byte>)
    requires f.seen.exit == None
    ensures Fed(f, a).seen.exit == None ==> Fed(Fed(f, a), b) == Fed(f, a + b)
    ensures Fed(f, a).seen.exit.Some? ==> Fed(f, a + b).seen == Fed(f, a).seen
  {
    DrainMore(f.(buf := f.buf + a), b);
    Assoc(f.buf, a, b);
  }

  /** readFrames: `initial` is what readResponse had read past the header. */
  class FrameReader {
    var buf: seq<byte>
    var out: seq<byte>
    var err: seq<byte>
    var exit: Option<nat>

    ghost function Model(): Frames
      reads this
    {
      Frames(Streams(out, err, exit), buf)
    }

    constructor (initial: seq<byte>)
      ensures Model() == Frames(Streams([], [], None), initial)
    {
      buf, out, err, exit := initial, [], [], None;
    }

    method DrainBuffer()
      requires exit == None
      modifies this
      ensures Model() == Drain(old(Model()))
    {
      while true
        invariant exit == None && Drain(Model()) == Drain(old(Model()))
        decreases |buf|
      {
        if |buf| < 5 { return; }
        var tag := buf[0];
        var len := ReadU32(buf[1..5]);
        if |buf| < 5 + len { return; }
        var data := buf[5..5 + len];
        buf := buf[5 + len..];
        if tag == STREAM_STDOUT {
          out := out + data;
        } else if tag == STREAM_STDERR {
          err := err + data;
        } else if tag == STREAM_EXIT {
          exit := Some(ExitCode(data));
          return;
        }
      }
    }

    method OnData(chunk: seq<byte>)
      requires exit == None
      modifies this
      ensures Model() == Fed(old(Model()), chunk)
    {
      buf := buf + chunk;
      DrainBuffer();
    }

    /** Drain what came with the header, then take chunks until an exit frame ends the reading. */
    method ReadFrames(chunks: seq<seq<byte>>)
      requires exit == None
      modifies this
      ensures Model().seen == Fed(old(Model()), Flatten(chunks)).seen
    {
      ghost var start, taken := Model(), [];
      assert start.buf + taken == start.buf;
      DrainBuffer();
      var i := 0;
      while i < |chunks| && exit == None
        invariant i <= |chunks|
        invariant taken + Flatten(chunks[i..]) == Flatten(chunks)
        invariant Model() == Fed(start, taken)
      {
        assert chunks[i..][1..] == chunks[i + 1..];
        FedTwice(start, taken, chunks[i]);
        OnData(chunks[i]);
        taken := taken + chunks[i];
        i := i + 1;
      }
      FedTwice(start, taken, Flatten(chunks[i..]));
      if exit == None {
        assert taken == Flatten(chunks);
      }
    }
  }

  // --- whole operations ---

  datatype SpawnResult =
    | NoResponse
    | Refused(status: byte)
    | NoExit(out: seq<byte>, err: seq<byte>)
    | Exited(out: seq<byte>, err: seq<byte>, code: nat)

  /** The outcome of a spawn whose connection delivered exactly these bytes before it closed. */
  function SpawnOutcome(received: seq<byte>): SpawnResult {
    match Next(received)
    case Incomplete => NoResponse
    case Complete(b, rest) =>
      if b.head != ST_OK then Refused(b.head)
      else Outcome(Drain(Frames(Streams([], [], None), rest)).seen)
  }

  function Outcome(s: Streams): SpawnResult {
    if s.exit == None then NoExit(s.out, s.err) else Exited(s.out, s.err, s.exit.value)
  }

  /** Feed chunks to readResponse until it settles; the rest of the chunks are for whoever reads next. */
  method AwaitResponse(chunks: seq<seq<byte>>) returns (r: Option<Block>, rest: seq<byte>, used: nat)
    ensures used <= |chunks|
    ensures r == None ==> used == |chunks| && Next(Flatten(chunks)).Incomplete?
    ensures r.Some? ==> Next(Flatten(chunks)) == Complete(r.value, rest + Flatten(chunks[used..]))
  {
    var reader := new ResponseReader();
    used := 0;
    while used < |chunks| && !reader.settled
      invariant used <= |chunks| && reader.Valid() && fresh(reader)
      invariant reader.buf + Flatten(chunks[used..]) == Flatten(chunks)
    {
      assert chunks[used..][1..] == chunks[used + 1..];
      reader.OnData(chunks[used]);
      used := used + 1;
    }
    if !reader.settled { return None, [], used; }
    NextStable(reader.buf, Flatten(chunks[used..]));
    var b;
    b, rest := reader.Result();
    r := Some(b);
  }

  /** A spawn is refused exactly if the stream starts with a whole response of another status than OK. */
  lemma SpawnRefusals(received: seq<byte>)
    ensures SpawnOutcome(received) == NoResponse <==> forall b: Block, rest: seq<byte> :: !Starts(received, b, rest)
    ensures forall status: byte :: SpawnOutcome(received) == Refused(status)
              <==> status != ST_OK && exists data: seq<byte>, rest: seq<byte> :: Starts(received, Block(status, data), rest)
  {
    forall b: Block, rest: seq<byte>
      ensures Starts(received, b, rest) <==> Next(received) == Complete(b, rest)
    {
      NextStarts(received, b, rest);
    }
    if Next(received).Complete? {
      var Complete(b, rest) := Next(received);
      assert Starts(received, Block(b.head, b.data), rest);
    }
  }

  /** spawn's reading side: its result depends on the bytes received and not on how TCP cut them up. */
  method AwaitSpawn(chunks: seq<seq<byte>>) returns (r: SpawnResult)
    ensures r == SpawnOutcome(Flatten(chunks))
  {
    var response, rest, used := AwaitResponse(chunks);
    if response == None { return NoResponse; }
    if response.value.head != ST_OK { return Refused(response.value.head); }
    var reader := new FrameReader(rest);
    reader.ReadFrames(chunks[used..]);
    r := if reader.exit == None then NoExit(reader.out, reader.err) else Exited(reader.out, reader.err, reader.exit.value);
  }

  /** When it comes to no process at all, by the bytes alone. */
  method AwaitUnstarted(chunks: seq<seq<byte>>) returns (r: SpawnResult)
    ensures r == NoResponse <==> forall b: Block, rest: seq<byte> :: !Starts(Flatten(chunks), b, rest)
    ensures forall status: byte :: r == Refused(status)
              <==> status != ST_OK && exists data: seq<byte>, rest: seq<byte> :: Starts(Flatten(chunks), Block(status, data), rest)
  {
    SpawnRefusals(Flatten(chunks));
    r := AwaitSpawn(chunks);
  }

  datatype GetResult = Closed | Missing | Failed(status: byte) | File(content: seq<byte>)

  /** getFile: inline body, then what came with the header, then everything up to end of file. */
  method AwaitFile(chunks: seq<seq<byte>>) returns (r: GetResult)
    ensures match Next(Flatten(chunks))
            case Incomplete => r == Closed
            case Complete(b, rest) =>
              r == if b.head == ST_MISSING then Missing
                   else if b.head != ST_OK then Failed(b.head)
                   else File(b.data + rest)
  {
    var response, rest, used := AwaitResponse(chunks);
    if response == None { return Closed; }
    if response.value.head == ST_MISSING { return Missing; }
    if response.value.head != ST_OK { return Failed(response.value.head); }
    var tail, i := [], used;
    while i < |chunks|
      invariant used <= i <= |chunks|
      invariant tail + Flatten(chunks[i..]) == Flatten(chunks[used..])
    {
      assert chunks[i..][1..] == chunks[i + 1..];
      tail := tail + chunks[i];
      i := i + 1;
    }
    assert tail == Flatten(chunks[used..]);
    r := File(response.value.data + rest + tail);
  }
}

/** Server and client together. */
module TunnelEndToEnd {
  import opened Basics
  import opened Bytes
  import opened TunnelWire
  import opened TunnelServer
  import opened TunnelClient
  import S = SpawnServer

  function Add(seen: Streams, out: seq<byte>, err: seq<byte>): Streams {
    seen.(out := seen.out + out, err := seen.err + err)
  }

  function Picked(log: seq<Block>): Streams {
    Streams(S.Pick(log, STREAM_STDOUT), S.Pick(log, STREAM_STDERR), None)
  }

  lemma {:induction false} DrainPumpFrame(seen: Streams, b: Block, rest: seq<byte>)
    requires b.head < S.MAIN && |b.data| < U32_RANGE
    ensures Drain(Frames(seen, Print(b) + rest))
         == Drain(Frames(Add(seen, if b.head == STREAM_STDOUT then b.data else [], if b.head == STREAM_STDERR then b.data else []), rest))
  {
    NextPrint(b, rest);
    assert seen.out + [] == seen.out && seen.err + [] == seen.err;
  }

  lemma {:induction false} DrainFrames(seen: Streams, log: seq<Block>, rest: seq<byte>)
    requires S.PumpFrames(log)
    ensures Drain(Frames(seen, S.PrintAll(log) + rest)) == Drain(Frames(Add(seen, Picked(log).out, Picked(log).err), rest))
    decreases |log|
  {
    if |log| == 0 {
      assert S.PrintAll(log) + rest == rest;
      assert Add(seen, [], []) == seen;
    } else {
      var b, front := log[|log| - 1], log[..|log| - 1];
      Assoc(S.PrintAll(front), Print(b), rest);
      DrainFrames(seen, front, Print(b) + rest);
      var mid := Add(seen, Picked(front).out, Picked(front).err);
      DrainPumpFrame(mid, b, rest);
      AddPicked(seen, front, b);
      assert log == front + [b];
    }
  }

  lemma AddPicked(seen: Streams, front: seq<Block>, b: Block)
    ensures Add(Add(seen, Picked(front).out, Picked(front).err),
                if b.head == STREAM_STDOUT then b.data else [], if b.head == STREAM_STDERR then b.data else [])
         == Add(seen, Picked(front + [b]).out, Picked(front + [b]).err)
  {
    assert (front + [b])[..|front|] == front;
  }

  /** What a client makes of an OK response, pump frames, and then some more. */
  lemma {:induction false} OutcomeOfFrames(log: seq<Block>, rest: seq<byte>)
    requires S.PumpFrames(log)
    ensures SpawnOutcome(Print(Block(ST_OK, [])) + S.PrintAll(log) + rest) == Outcome(Drain(Frames(Picked(log), rest)).seen)
  {
    Assoc(Print(Block(ST_OK, [])), S.PrintAll(log), rest);
    NextPrint(Block(ST_OK, []), S.PrintAll(log) + rest);
    DrainFrames(Streams([], [], None), log, rest);
    assert Add(Streams([], [], None), Picked(log).out, Picked(log).err) == Picked(log);
  }

  lemma {:induction false} DrainExit(seen: Streams, code: int, rest: seq<byte>)
    ensures Drain(Frames(seen, Print(Block(STREAM_EXIT, PutU32(code))) + rest))
         == Frames(seen.(exit := Some(code % U32_RANGE)), rest)
  {
    NextPrint(Block(STREAM_EXIT, PutU32(code)), rest);
    ReadPutU32(code, []);
    assert PutU32(code) + [] == PutU32(code);
  }

  /**
   * End to end. For every process output and exit code, every way the two pumps cut their reads and were
   * scheduled, and every way TCP cut the stream, the client rebuilds exactly the bytes the pumps read, in
   * order, on each stream; what it is missing is what a pump never read before its read failed. The exit
   * status is the code modulo 2^32.
   */
  method SpawnEndToEnd(stdout: seq<byte>, stderr: seq<byte>, code: int, ghost run: seq<S.Action>, chunks: seq<seq<byte>>)
    returns (r: SpawnResult)
    requires S.Legal(S.Init(stdout, stderr, code), run)
    requires S.Exec(S.Init(stdout, stderr, code), run).writers[S.MAIN].pc == S.Done
    requires Flatten(chunks) == S.Exec(S.Init(stdout, stderr, code), run).wire
    ensures r.Exited?
    ensures r.out + S.Exec(S.Init(stdout, stderr, code), run).writers[S.OUT].unread == stdout
    ensures r.err + S.Exec(S.Init(stdout, stderr, code), run).writers[S.ERR].unread == stderr
    ensures r.code == code % U32_RANGE
    ensures r.code == code <==> 0 <= code < U32_RANGE
  {
    FinishedRunOutcome(stdout, stderr, code, run);
    r := AwaitSpawn(chunks);
  }

  lemma {:induction false} FinishedRunOutcome(stdout: seq<byte>, stderr: seq<byte>, code: int, run: seq<S.Action>)
    requires S.Legal(S.Init(stdout, stderr, code), run)
    requires S.Exec(S.Init(stdout, stderr, code), run).writers[S.MAIN].pc == S.Done
    ensures var s := S.Exec(S.Init(stdout, stderr, code), run);
            var r := SpawnOutcome(s.wire);
            && r.Exited? && r.code == code % U32_RANGE
            && r.out + s.writers[S.OUT].unread == stdout
            && r.err + s.writers[S.ERR].unread == stderr
  {
    var pumped := S.WireOfFinishedRun(stdout, stderr, code, run);
    OutcomeWithExit(pumped, code);
  }

  /** And such an outcome is always within reach: some continuation of every run brings the client an exit. */
  lemma {:induction false} OutcomeInReach(stdout: seq<byte>, stderr: seq<byte>, code: int, run: seq<S.Action>)
    returns (more: seq<S.Action>)
    requires S.Legal(S.Init(stdout, stderr, code), run)
    ensures S.Legal(S.Init(stdout, stderr, code), run + more)
    ensures var s := S.Exec(S.Init(stdout, stderr, code), run);
            var r := SpawnOutcome(S.Exec(S.Init(stdout, stderr, code), run + more).wire);
            && r.Exited? && r.code == code % U32_RANGE
            && r.out + S.Remains(s.writers[S.OUT]) == stdout && r.err + S.Remains(s.writers[S.ERR]) == stderr
  {
    more := S.NeverStuck(stdout, stderr, code, run);
    FinishedRunOutcome(stdout, stderr, code, run + more);
  }

  lemma {:induction false} DrainPrefix(f: Frames, more: seq<byte>)
    requires f.seen.exit == None
    ensures Drain(f).seen.out <= Drain(f.(buf := f.buf + more)).seen.out
    ensures Drain(f).seen.err <= Drain(f.(buf := f.buf + more)).seen.err
    ensures Drain(f).seen.exit.Some? ==> Drain(f).seen == Drain(f.(buf := f.buf + more)).seen
  {
    DrainMore(f, more);
  }

  /** An outcome only ever grows with more bytes, and a reported exit is final. */
  lemma OutcomeGrows(received: seq<byte>, more: seq<byte>)
    ensures var now, later := SpawnOutcome(received), SpawnOutcome(received + more);
            && (now.Exited? || now.Refused? ==> later == now)
            && (now.NoExit? ==> later.Exited? || later.NoExit?)
            && (now.NoExit? ==> now.out <= later.out && now.err <= later.err)
  {
    if Next(received).Complete? {
      NextStable(received, more);
      DrainPrefix(Frames(Streams([], [], None), Next(received).rest), more);
    }
  }

  /**
   * Safety at every moment: whatever prefix of the wire has been delivered in whatever reachable state, the
   * client has only true prefixes of the two streams, and it reports an exit only once the exit frame is
   * completely sent, with the right code and every byte the pumps read.
   */
  lemma {:induction false} DeliveredSoFar(stdout: seq<byte>, stderr: seq<byte>, code: int, run: seq<S.Action>, received: seq<byte>)
    requires S.Legal(S.Init(stdout, stderr, code), run)
    requires received <= S.Exec(S.Init(stdout, stderr, code), run).wire
    ensures var s := S.Exec(S.Init(stdout, stderr, code), run);
            match SpawnOutcome(received)
            case NoResponse => true
            case Refused(_) => false
            case NoExit(out, err) => out <= stdout && err <= stderr
            case Exited(out, err, c) =>
              && (s.writers[S.MAIN].pc == S.DataSent || s.writers[S.MAIN].pc == S.Done)
              && out + s.writers[S.OUT].unread == stdout && err + s.writers[S.ERR].unread == stderr
              && c == code % U32_RANGE
  {
    S.InvInit(stdout, stderr, code);
    S.InvRun(S.Init(stdout, stderr, code), run, stdout, stderr);
    var s := S.Exec(S.Init(stdout, stderr, code), run);
    OutcomeGrows(received, s.wire[|received|..]);
    assert received + s.wire[|received|..] == s.wire;
    OutcomeOfState(s, stdout, stderr);
  }

  ghost predicate GoodOutcome(s: S.State, stdout: seq<byte>, stderr: seq<byte>, r: SpawnResult)
    requires |s.writers| == 3
  {
    match r
    case NoResponse => false
    case Refused(_) => false
    case NoExit(out, err) => out <= stdout && err <= stderr
    case Exited(out, err, c) =>
      && (s.writers[S.MAIN].pc == S.DataSent || s.writers[S.MAIN].pc == S.Done)
      && out + s.writers[S.OUT].unread == stdout && err + s.writers[S.ERR].unread == stderr
      && c == s.code % U32_RANGE
  }

  lemma OutcomeOfState(s: S.State, stdout: seq<byte>, stderr: seq<byte>)
    requires S.Inv(s, stdout, stderr)
    ensures GoodOutcome(s, stdout, stderr, SpawnOutcome(s.wire))
  {
    if s.writers[S.MAIN].pc == S.Done {
      OutcomeAtEnd(s, stdout, stderr);
    } else if s.mutex == Some(S.MAIN) {
      OutcomeDuringExit(s, stdout, stderr);
    } else {
      OutcomeOfPump(s, stdout, stderr);
    }
  }

  lemma OutcomeAtEnd(s: S.State, stdout: seq<byte>, stderr: seq<byte>)
    requires S.Inv(s, stdout, stderr) && s.writers[S.MAIN].pc == S.Done
    ensures GoodOutcome(s, stdout, stderr, SpawnOutcome(s.wire))
  {
    var pumped := s.log[..|s.log| - 1];
    S.FinishedWire(s, pumped);
    S.PickedAll(s, pumped, S.OUT, stdout);
    S.PickedAll(s, pumped, S.ERR, stderr);
    OutcomeWithExit(pumped, s.code);
  }

  lemma {:induction false} OutcomeWithExit(pumped: seq<Block>, code: int)
    requires S.PumpFrames(pumped)
    ensures SpawnOutcome(Print(Block(ST_OK, [])) + S.PrintAll(pumped) + Print(Block(STREAM_EXIT, PutU32(code))))
         == Exited(Picked(pumped).out, Picked(pumped).err, code % U32_RANGE)
  {
    var exit := Print(Block(STREAM_EXIT, PutU32(code)));
    OutcomeOfFrames(pumped, exit);
    DrainExit(Picked(pumped), code, []);
    assert exit + [] == exit;
  }

  lemma {:induction false} HeaderAlone(seen: Streams, tag: byte)
    ensures Drain(Frames(seen, [tag] + PutU32(4))).seen == seen
  {
    assert ([tag] + PutU32(4))[1..5] == PutU32(4) + [];
    ReadPutU32(4, []);
  }

  /** What has been framed of an input is a prefix of it, and all but the unread rest once nothing is in hand. */
  lemma {:induction false} FramedPrefix(s: S.State, w: nat, input: seq<byte>)
    requires |s.writers| == 3 && w < S.MAIN && S.Accounted(s, w, input)
    ensures S.Pick(s.log, w) <= input && S.Pick(s.log, w) + s.writers[w].held <= input
    ensures s.writers[w].pc == S.Done ==> S.Pick(s.log, w) + s.writers[w].unread == input
  {
    assert S.Pick(s.log, w) + [] == S.Pick(s.log, w);
  }

  lemma OutcomeDuringExit(s: S.State, stdout: seq<byte>, stderr: seq<byte>)
    requires S.Inv(s, stdout, stderr) && s.writers[S.MAIN].pc != S.Done && s.mutex == Some(S.MAIN)
    ensures GoodOutcome(s, stdout, stderr, SpawnOutcome(s.wire))
  {
    FramedPrefix(s, S.OUT, stdout);
    FramedPrefix(s, S.ERR, stderr);
    var main := s.writers[S.MAIN];
    if main.pc == S.DataSent {
      OutcomeWithExit(s.log, s.code);
    } else {
      var tail := S.Partial(S.MAIN, main);
      OutcomeOfFrames(s.log, tail);
      if main.pc == S.HeaderSent {
        HeaderAlone(Picked(s.log), STREAM_EXIT);
      }
    }
  }

  lemma OutcomeIdle(s: S.State, stdout: seq<byte>, stderr: seq<byte>)
    requires S.MutexHeld(s) && S.WireIsFrames(s) && S.Accounted(s, S.OUT, stdout) && S.Accounted(s, S.ERR, stderr)
    requires S.PumpFrames(s.log) && s.mutex == None
    ensures GoodOutcome(s, stdout, stderr, SpawnOutcome(s.wire))
  {
    FramedPrefix(s, S.OUT, stdout);
    FramedPrefix(s, S.ERR, stderr);
    OutcomeOfFrames(s.log, []);
  }

  lemma OutcomeInFrame(s: S.State, stdout: seq<byte>, stderr: seq<byte>, w: nat)
    requires S.MutexHeld(s) && S.WireIsFrames(s) && S.Accounted(s, S.OUT, stdout) && S.Accounted(s, S.ERR, stderr)
    requires S.PumpFrames(s.log) && s.mutex == Some(w) && w < S.MAIN
    ensures GoodOutcome(s, stdout, stderr, SpawnOutcome(s.wire))
  {
    FramedPrefix(s, S.OUT, stdout);
    FramedPrefix(s, S.ERR, stderr);
    var b := Block(w, s.writers[w].held);
    OutcomeOfPart(s.log, b, S.Partial(w, s.writers[w]));
    S.LogSnoc(s.log, b, STREAM_STDOUT);
    S.LogSnoc(s.log, b, STREAM_STDERR);
  }

  lemma OutcomeOfPump(s: S.State, stdout: seq<byte>, stderr: seq<byte>)
    requires S.Inv(s, stdout, stderr)
    requires s.writers[S.MAIN].pc != S.Done && s.mutex != Some(S.MAIN)
    ensures GoodOutcome(s, stdout, stderr, SpawnOutcome(s.wire))
  {
    match s.mutex
    case None => OutcomeIdle(s, stdout, stderr);
    case Some(w) => OutcomeInFrame(s, stdout, stderr, w);
  }

  /** With only part of a pump's frame sent, the client has no more than it will have with all of it. */
  lemma {:induction false} OutcomeOfPart(log: seq<Block>, b: Block, part: seq<byte>)
    requires S.PumpFrames(log) && b.head < S.MAIN && |b.data| <= S.BUF_LEN && part <= Print(b)
    ensures var r := SpawnOutcome(Print(Block(ST_OK, [])) + S.PrintAll(log) + part);
            r.NoExit? && r.out <= S.Pick(log + [b], STREAM_STDOUT) && r.err <= S.Pick(log + [b], STREAM_STDERR)
  {
    var ok, missing := Print(Block(ST_OK, [])), Print(b)[|part|..];
    assert part + missing == Print(b);
    OutcomeOfFrames(log, part);
    OutcomeOfFrames(log + [b], []);
    S.LogSnoc(log, b, STREAM_STDOUT);
    Assoc(ok + S.PrintAll(log), part, missing);
    Assoc(ok, S.PrintAll(log), Print(b));
    var whole := ok + S.PrintAll(log + [b]);
    assert whole + [] == whole;
    OutcomeGrows(ok + S.PrintAll(log) + part, missing);
  }

  /** A spawn the server could not start is refused with the server's status, for every chunking. */
  method RefusedEndToEnd(parsed: bool, piped: bool, started: bool, chunks: seq<seq<byte>>) returns (r: SpawnResult)
    requires !(parsed && piped && started)
    requires Flatten(chunks) == [if parsed then 1 else 3, 0, 0, 0, 0]
    ensures r == Refused(if parsed then 1 else 3)
  {
    var conn := new Conn([]);
    var ok := conn.StartSpawn(parsed, piped, started);
    PrintLayout(Block(if parsed then 1 else 3, []));
    assert conn.sent == [if parsed then 1 else 3, 0, 0, 0, 0];
    assert Starts(Flatten(chunks), Block(if parsed then 1 else 3, []), []);
    r := AwaitUnstarted(chunks);
  }

  /** What doGet answers, and what getFile makes of it, for every chunking of the reply. */
  method GetAnswered(parsed: bool, allowed: bool, opening: Opening, chunks: seq<seq<byte>>) returns (r: GetResult)
    requires Flatten(chunks) == if !parsed then [3, 0, 0, 0, 0] else if !allowed then [4, 0, 0, 0, 0]
                                else match opening
                                     case NotFound => [2, 0, 0, 0, 0]
                                     case Unreadable => [1, 0, 0, 0, 0]
                                     case Opened(file) => [0, 0, 0, 0, 0] + file
    ensures r == if !parsed then GetResult.Failed(3) else if !allowed then GetResult.Failed(4)
                 else match opening
                      case NotFound => GetResult.Missing
                      case Unreadable => GetResult.Failed(1)
                      case Opened(file) => File(file)
  {
    var conn := new Conn([]);
    conn.DoGet(parsed, allowed, opening);
    var status := if !parsed then 3 else if !allowed then 4 else if opening.NotFound? then 2 else if opening.Unreadable? then 1 else 0;
    ghost var file := if status == 0 then opening.file else [];
    PrintLayout(Block(status, []));
    assert Print(Block(status, [])) == [status, 0, 0, 0, 0];
    assert conn.sent == Flatten(chunks);
    assert Flatten(chunks) == Print(Block(status, [])) + file;
    NextPrint(Block(status, []), file);
    assert [] + file == file;
    r := AwaitFile(chunks);
  }

  /** getFile returns the file the server replied with, for every chunking of the reply. */
  method GetEndToEnd(file: seq<byte>, chunks: seq<seq<byte>>) returns (r: GetResult)
    requires Flatten(chunks) == Print(Block(ST_OK, [])) + file
    ensures r == File(file)
  {
    NextPrint(Block(ST_OK, []), file);
    r := AwaitFile(chunks);
  }
}
