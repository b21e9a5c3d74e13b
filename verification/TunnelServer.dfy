/** The server's end of one connection: reading a request out of TCP segments, and printing replies. */
module TunnelServer {
  import opened Basics
  import opened Bytes
  import opened TunnelWire

  /** Taking the front of a segment leaves the rest of it, or moves on to the next. */
  lemma {:induction false} SegmentTaken(segment: seq<byte>, n: nat, later: seq<seq<byte>>, before: seq<byte>)
    requires n <= |segment|
    ensures before + Flatten([segment] + later)
         == before + segment[..n] + Flatten(if n == |segment| then later else [segment[n..]] + later)
  {
    assert segment == segment[..n] + segment[n..];
    assert ([segment] + later)[1..] == later && ([segment[n..]] + later)[1..] == later;
    Assoc(segment[..n], segment[n..], Flatten(later));
    Assoc(before, segment[..n], segment[n..] + Flatten(later));
    if n == |segment| {
      assert segment[n..] + Flatten(later) == Flatten(later);
    }
  }

  /** What opening a file for GET comes to. */
  datatype Opening = NotFound | Unreadable | Opened(file: seq<byte>)

  lemma EmptyBlock(status: byte)
    ensures Print(Block(status, [])) == [status, 0, 0, 0, 0]
  {
    PrintLayout(Block(status, []));
  }

  class Conn {
    var incoming: seq<seq<byte>>  // TCP segments that have arrived and are not read yet
    var sent: seq<byte>

    constructor (segments: seq<seq<byte>>)
      ensures incoming == segments && sent == []
    {
      incoming, sent := segments, [];
    }

    ghost function Unread(): seq<byte>
      reads this
    {
      Flatten(incoming)
    }

    /** io.ReadFull: fill the whole buffer, however the bytes were cut into segments, or report failure. */
    method ReadFull(buf: array<byte>) returns (ok: bool)
      modifies this`incoming, buf
      ensures ok == (|old(Unread())| >= buf.Length)
      ensures ok ==> old(Unread()) == buf[..] + Unread()
    {
      var got := 0;
      while got < buf.Length && |incoming| > 0
        invariant got <= buf.Length
        invariant old(Unread()) == buf[..got] + Unread()
        decreases |incoming|, buf.Length - got
      {
        label Turn:
        ghost var before, later := buf[..got], incoming[1..];
        var segment := incoming[0];
        var n := if |segment| <= buf.Length - got then |segment| else buf.Length - got;
        forall i | 0 <= i < n {
          buf[got + i] := segment[i];
        }
        incoming := if n == |segment| then incoming[1..] else [segment[n..]] + incoming[1..];
        assert buf[..got + n] == before + segment[..n];
        assert [segment] + later == old@Turn(incoming);
        SegmentTaken(segment, n, later, before);
        got := got + n;
      }
      ok := got == buf.Length;
      if ok {
        assert buf[..got] == buf[..];
      }
    }

    /** The request part of handleConn: token, six header bytes, then as many argument bytes as announced. */
    method HandleConn(bearer: seq<byte>) returns (r: Option<Request>)
      requires |bearer| == TOKEN_LEN
      modifies this`incoming
      ensures match ReadRequest(bearer, old(Unread()))
              case None => r == None
              case Some((request, rest)) => r == Some(request) && Unread() == rest
    {
      ghost var all := Unread();
      var token := new byte[TOKEN_LEN];
      var ok := ReadFull(token);
      if !ok { return None; }
      assert all[..TOKEN_LEN] == token[..];
      if token[..] != bearer { return None; }

      var hdr := new byte[6];
      ok := ReadFull(hdr);
      if !ok { return None; }
      assert all == token[..] + hdr[..] + Unread();
      assert all[TOKEN_LEN] == hdr[0];
      assert all[TOKEN_LEN + 2..TOKEN_LEN + 6] == hdr[2..6];
      var argLen := ReadU32(hdr[2..6]);

      var args := new byte[argLen];
      ok := ReadFull(args);
      if !ok { return None; }
      var end := TOKEN_LEN + 6 + argLen;
      assert all == token[..] + hdr[..] + args[..] + Unread();
      assert all[TOKEN_LEN + 6..end] == args[..];
      assert all[end..] == Unread();
      r := Some(Request(hdr[0], args[..]));
    }

    /** writeResp: a five-byte header, then the arguments if there are any. */
    method WriteResp(status: byte, args: seq<byte>)
      modifies this`sent
      ensures sent == old(sent) + Print(Block(status, args))
    {
      var hdr := new byte[5];
      hdr[0] := status;
      var len := PutU32(|args|);
      hdr[1], hdr[2], hdr[3], hdr[4] := len[0], len[1], len[2], len[3];
      assert hdr[..] == [status] + len;
      sent := sent + hdr[..];
      if |args| > 0 {
        sent := sent + args;
      }
      assert sent == old(sent) + ([status] + len + args);
    }

    /** doSpawn up to its response: a request that does not parse, a pipe or a process that cannot be had. */
    method StartSpawn(parsed: bool, piped: bool, started: bool) returns (ok: bool)
      modifies this`sent
      ensures ok <==> parsed && piped && started
      ensures sent == old(sent) + [if !parsed then 3 else if !ok then 1 else 0, 0, 0, 0, 0]
    {
      var status := if !parsed then ST_BADREQ else if !piped || !started then ST_ERROR else ST_OK;
      PrintLayout(Block(status, []));
      assert Print(Block(status, [])) == [status, 0, 0, 0, 0];
      WriteResp(status, []);
      ok := status == ST_OK;
    }

    /** doGet. */
    method DoGet(parsed: bool, allowed: bool, opening: Opening)
      modifies this`sent
      ensures sent == old(sent) + if !parsed then [3, 0, 0, 0, 0] else if !allowed then [4, 0, 0, 0, 0]
                                  else match opening
                                       case NotFound => [2, 0, 0, 0, 0]
                                       case Unreadable => [1, 0, 0, 0, 0]
                                       case Opened(file) => [0, 0, 0, 0, 0] + file
    {
      EmptyBlock(3);
      EmptyBlock(4);
      EmptyBlock(2);
      EmptyBlock(1);
      EmptyBlock(0);
      if !parsed { WriteResp(ST_BADREQ, []); return; }
      if !allowed { WriteResp(ST_DENIED, []); return; }
      match opening
      case NotFound => WriteResp(ST_MISSING, []);
      case Unreadable => WriteResp(ST_ERROR, []);
      case Opened(file) =>
        Assoc(sent, [0, 0, 0, 0, 0], file);
        ReplyGet(file);
    }

    /** doGet's reply once the file is open: an empty OK response followed by the raw file. */
    method ReplyGet(file: seq<byte>)
      modifies this`sent
      ensures sent == old(sent) + Print(Block(ST_OK, [])) + file
    {
      WriteResp(ST_OK, []);
      sent := sent + file;
    }
  }

  /** A client's request, cut into any segments, reaches the handler with exactly the body left unread. */
  method ServeRequest(bearer: seq<byte>, request: Request, body: seq<byte>, segments: seq<seq<byte>>)
    returns (r: Option<Request>, rest: seq<seq<byte>>)
    requires |bearer| == TOKEN_LEN
    requires PrintRequest(bearer, request).Some?
    requires Flatten(segments) == PrintRequest(bearer, request).value + body
    ensures r == Some(request) && Flatten(rest) == body
  {
    RequestRoundTrip(bearer, bearer, request, body);
    var conn := new Conn(segments);
    r := conn.HandleConn(bearer);
    rest := conn.incoming;
  }
}

/**
 * doSpawn as a state machine: two pumps and the final exit frame share one connection under a mutex.
 * Every step another goroutine could be scheduled before is a step of its own, and the two halves of
 * a frame are separate writes.
 */
module SpawnServer {
  import opened Basics
  import opened Bytes
  import opened TunnelWire

  const BUF_LEN: nat := 32 * 1024
  const OUT: nat := 0
  const ERR: nat := 1
  const MAIN: nat := 2

  datatype Pc = Reading | Waiting | Locked | HeaderSent | DataSent | Done

  /** A goroutine that frames data: a pump with the bytes its process has still to be read, or the exit frame. */
  datatype Writer = Writer(pc: Pc, unread: seq<byte>, held: seq<byte>, last: bool)

  /** `log` records the frames completed so far; it decides nothing. */
  datatype State = State(writers: seq<Writer>, mutex: Option<nat>, wire: seq<byte>, log: seq<Block>, code: int)

  datatype Action =
    | Read(w: nat, n: nat, last: bool)  // r.Read returned n bytes, and an error or end of file when last
    | Exit                              // wg.Wait returned and the process was reaped
    | Lock(w: nat)
    | SendHeader(w: nat)
    | SendData(w: nat)
    | Unlock(w: nat)

  function Init(stdout: seq<byte>, stderr: seq<byte>, code: int): State {
    var idle := Writer(Reading, [], [], false);
    State([idle.(unread := stdout), idle.(unread := stderr), idle], None, Print(Block(ST_OK, [])), [], code)
  }

  predicate Enabled(s: State, a: Action) {
    && |s.writers| == 3
    && match a
       case Read(w, n, _) => w < MAIN && s.writers[w].pc == Reading && n <= |s.writers[w].unread| && n <= BUF_LEN
       case Exit => s.writers[OUT].pc == Done && s.writers[ERR].pc == Done && s.writers[MAIN].pc == Reading
       case Lock(w) => w < 3 && s.writers[w].pc == Waiting && s.mutex == None
       case SendHeader(w) => w < 3 && s.writers[w].pc == Locked
       case SendData(w) => w < 3 && s.writers[w].pc == HeaderSent
       case Unlock(w) => w < 3 && s.writers[w].pc == DataSent
  }

  function Apply(s: State, a: Action): State
    requires Enabled(s, a)
  {
    match a
    case Read(w, n, last) =>
      var x := s.writers[w];
      var pc := if n > 0 then Waiting else if last then Done else Reading;
      s.(writers := s.writers[w := Writer(pc, x.unread[n..], x.unread[..n], last)])
    case Exit =>
      s.(writers := s.writers[MAIN := Writer(Waiting, [], PutU32(s.code), true)])
    case Lock(w) =>
      s.(mutex := Some(w), writers := s.writers[w := s.writers[w].(pc := Locked)])
    case SendHeader(w) =>
      s.(wire := s.wire + ([w] + PutU32(|s.writers[w].held|)), writers := s.writers[w := s.writers[w].(pc := HeaderSent)])
    case SendData(w) =>
      s.(wire := s.wire + s.writers[w].held, writers := s.writers[w := s.writers[w].(pc := DataSent)])
    case Unlock(w) =>
      var x := s.writers[w];
      s.(mutex := None,
         log := s.log + [Block(w, x.held)],
         writers := s.writers[w := x.(pc := if x.last then Done else Reading, held := [])])
  }

  predicate Legal(s: State, run: seq<Action>)
    decreases |run|
  {
    |run| == 0 || (Enabled(s, run[0]) && Legal(Apply(s, run[0]), run[1..]))
  }

  function Exec(s: State, run: seq<Action>): (r: State)
    requires Legal(s, run)
    ensures |r.writers| == |s.writers|
    decreases |run|
  {
    if |run| == 0 then s else Exec(Apply(s, run[0]), run[1..])
  }

  function PrintAll(log: seq<Block>): seq<byte> {
    if |log| == 0 then [] else PrintAll(log[..|log| - 1]) + Print(log[|log| - 1])
  }

  /** The data of every frame with one tag, in order. */
  function Pick(log: seq<Block>, tag: byte): seq<byte> {
    if |log| == 0 then []
    else Pick(log[..|log| - 1], tag) + if log[|log| - 1].head == tag then log[|log| - 1].data else []
  }

  ghost predicate PumpFrames(log: seq<Block>) {
    forall i :: 0 <= i < |log| ==> log[i].head < MAIN && |log[i].data| <= BUF_LEN
  }

  /** The part of a frame its owner has already put on the wire. */
  function Partial(w: nat, x: Writer): seq<byte>
    requires w < 3
  {
    match x.pc
    case HeaderSent => [w] + PutU32(|x.held|)
    case DataSent => Print(Block(w, x.held))
    case _ => []
  }

  predicate Framing(pc: Pc) { pc == Locked || pc == HeaderSent || pc == DataSent }

  /** Bytes neither lost, repeated nor reordered: framed, then in hand, then unread. */
  ghost predicate Accounted(s: State, w: nat, input: seq<byte>)
    requires w < |s.writers| && w < 3
  {
    var x := s.writers[w];
    && Pick(s.log, w) + x.held + x.unread == input
    && |x.held| <= BUF_LEN
    && (x.pc == Reading || x.pc == Done <==> x.held == [])
  }

  ghost predicate ExitFrameLast(s: State)
    requires |s.writers| == 3
  {
    var main := s.writers[MAIN];
    && (main.pc != Reading ==> s.writers[OUT].pc == Done && s.writers[ERR].pc == Done)
    && (main.pc != Reading && main.pc != Done ==> main.held == PutU32(s.code) && main.last)
    && (if main.pc == Done then
          |s.log| > 0 && s.log[|s.log| - 1] == Block(MAIN, PutU32(s.code)) && PumpFrames(s.log[..|s.log| - 1])
        else PumpFrames(s.log))
  }

  /** A goroutine is inside `frame` exactly while it has the mutex. */
  ghost predicate MutexHeld(s: State) {
    && |s.writers| == 3
    && (forall w :: 0 <= w < 3 ==> (Framing(s.writers[w].pc) <==> s.mutex == Some(w)))
    && (s.mutex.Some? ==> s.mutex.value < 3)
  }

  /** The response, the completed frames, and what the mutex holder has sent of its own. */
  ghost predicate WireIsFrames(s: State)
    requires MutexHeld(s)
  {
    s.wire == Print(Block(ST_OK, [])) + PrintAll(s.log)
              + (if s.mutex.Some? then Partial(s.mutex.value, s.writers[s.mutex.value]) else [])
  }

  ghost predicate Inv(s: State, stdout: seq<byte>, stderr: seq<byte>) {
    && MutexHeld(s)
    && WireIsFrames(s)
    && Accounted(s, OUT, stdout)
    && Accounted(s, ERR, stderr)
    && ExitFrameLast(s)
  }

  lemma InvInit(stdout: seq<byte>, stderr: seq<byte>, code: int)
    ensures Inv(Init(stdout, stderr, code), stdout, stderr)
  {
  }

  lemma {:induction false} LogSnoc(log: seq<Block>, b: Block, tag: byte)
    ensures PrintAll(log + [b]) == PrintAll(log) + Print(b)
    ensures Pick(log + [b], tag) == Pick(log, tag) + if b.head == tag then b.data else []
  {
    assert (log + [b])[..|log|] == log;
  }

  lemma ReadKeepsInput(s: State, a: Action, v: nat, input: seq<byte>)
    requires Enabled(s, a) && a.Read? && v < MAIN && Accounted(s, v, input)
    ensures Accounted(Apply(s, a), v, input)
  {
    var x := s.writers[v];
    if v == a.w {
      assert x.unread == x.unread[..a.n] + x.unread[a.n..];
      NoMiddle(Pick(s.log, v), x.unread);
      Assoc(Pick(s.log, v), x.unread[..a.n], x.unread[a.n..]);
    }
  }

  lemma InvRead(s: State, a: Action, stdout: seq<byte>, stderr: seq<byte>)
    requires Inv(s, stdout, stderr) && Enabled(s, a) && a.Read?
    ensures Inv(Apply(s, a), stdout, stderr)
  {
    ReadKeepsInput(s, a, OUT, stdout);
    ReadKeepsInput(s, a, ERR, stderr);
    assert s.mutex != Some(a.w);
  }

  lemma UnlockKeepsWire(s: State, w: nat)
    requires MutexHeld(s) && WireIsFrames(s) && Enabled(s, Unlock(w))
    ensures MutexHeld(Apply(s, Unlock(w))) && WireIsFrames(Apply(s, Unlock(w)))
  {
    assert s.mutex == Some(w);
    var b := Block(w, s.writers[w].held);
    LogSnoc(s.log, b, OUT);
    Assoc(Print(Block(ST_OK, [])), PrintAll(s.log), Print(b));
    assert Apply(s, Unlock(w)).log == s.log + [b];
    var text := Print(Block(ST_OK, [])) + PrintAll(s.log + [b]);
    assert text + [] == text;
  }

  lemma NoMiddle(a: seq<byte>, c: seq<byte>)
    ensures a + [] + c == a + c
  {
  }

  lemma UnlockKeepsInput(s: State, w: nat, v: nat, input: seq<byte>)
    requires MutexHeld(s) && Enabled(s, Unlock(w)) && v < MAIN && Accounted(s, v, input)
    ensures Accounted(Apply(s, Unlock(w)), v, input)
  {
    var t, b, x := Apply(s, Unlock(w)), Block(w, s.writers[w].held), s.writers[v];
    assert t.log == s.log + [b];
    LogSnoc(s.log, b, v);
    if v == w {
      var y := t.writers[v];
      assert y.held == [] && y.unread == x.unread && (y.pc == Reading || y.pc == Done);
      NoMiddle(Pick(s.log, v) + x.held, x.unread);
    } else {
      assert t.writers[v] == x;
      assert Pick(s.log, v) + [] == Pick(s.log, v);
    }
  }

  lemma UnlockKeepsExit(s: State, w: nat, input: seq<byte>)
    requires MutexHeld(s) && Enabled(s, Unlock(w)) && ExitFrameLast(s)
    requires w < MAIN ==> Accounted(s, w, input)
    ensures ExitFrameLast(Apply(s, Unlock(w)))
  {
    var t := Apply(s, Unlock(w));
    assert t.log == s.log + [Block(w, s.writers[w].held)];
    assert t.log[..|t.log| - 1] == s.log;
  }

  lemma InvUnlock(s: State, a: Action, stdout: seq<byte>, stderr: seq<byte>)
    requires Inv(s, stdout, stderr) && Enabled(s, a) && a.Unlock?
    ensures Inv(Apply(s, a), stdout, stderr)
  {
    var w := a.w;
    assert a == Unlock(w);
    UnlockKeepsWire(s, w);
    UnlockKeepsExit(s, w, if w == OUT then stdout else stderr);
    UnlockKeepsInput(s, w, OUT, stdout);
    UnlockKeepsInput(s, w, ERR, stderr);
  }

  lemma InvSendHeader(s: State, a: Action, stdout: seq<byte>, stderr: seq<byte>)
    requires Inv(s, stdout, stderr) && Enabled(s, a) && a.SendHeader?
    ensures Inv(Apply(s, a), stdout, stderr)
  {
    assert s.mutex == Some(a.w);
    assert Partial(a.w, s.writers[a.w]) == [];
    assert s.wire == Print(Block(ST_OK, [])) + PrintAll(s.log);
  }

  lemma InvSendData(s: State, a: Action, stdout: seq<byte>, stderr: seq<byte>)
    requires Inv(s, stdout, stderr) && Enabled(s, a) && a.SendData?
    ensures Inv(Apply(s, a), stdout, stderr)
  {
    var x := s.writers[a.w];
    var frames := Print(Block(ST_OK, [])) + PrintAll(s.log);
    assert s.mutex == Some(a.w);
    assert s.wire == frames + ([a.w] + PutU32(|x.held|));
    assert Apply(s, a).wire == frames + Print(Block(a.w, x.held));
  }

  lemma InvStep(s: State, a: Action, stdout: seq<byte>, stderr: seq<byte>)
    requires Inv(s, stdout, stderr) && Enabled(s, a)
    ensures Inv(Apply(s, a), stdout, stderr)
  {
    match a
    case Read(_, _, _) => InvRead(s, a, stdout, stderr);
    case Unlock(_) => InvUnlock(s, a, stdout, stderr);
    case SendHeader(_) => InvSendHeader(s, a, stdout, stderr);
    case SendData(_) => InvSendData(s, a, stdout, stderr);
    case _ =>
  }

  lemma {:induction false} InvRun(s: State, run: seq<Action>, stdout: seq<byte>, stderr: seq<byte>)
    requires Inv(s, stdout, stderr) && Legal(s, run)
    ensures Inv(Exec(s, run), stdout, stderr)
    ensures Exec(s, run).code == s.code
    decreases |run|
  {
    if |run| > 0 {
      InvStep(s, run[0], stdout, stderr);
      InvRun(Apply(s, run[0]), run[1..], stdout, stderr);
    }
  }

  /**
   * Mutual exclusion on the connection in every reachable state, and what the wire then holds: whole
   * frames, followed by at most one unfinished frame of the mutex holder.
   */
  lemma {:induction false} FramesNeverInterleave(stdout: seq<byte>, stderr: seq<byte>, code: int, run: seq<Action>)
    requires Legal(Init(stdout, stderr, code), run)
    ensures var s := Exec(Init(stdout, stderr, code), run);
            && |s.writers| == 3
            && (forall v, w :: 0 <= v < w < 3 ==> !(Framing(s.writers[v].pc) && Framing(s.writers[w].pc)))
            && Print(Block(ST_OK, [])) + PrintAll(s.log) <= s.wire
            && (s.mutex == None ==> s.wire == Print(Block(ST_OK, [])) + PrintAll(s.log))
  {
    InvInit(stdout, stderr, code);
    InvRun(Init(stdout, stderr, code), run, stdout, stderr);
  }

  /** A run that got to its end has sent every byte the pumps read, and the exit frame after all of them. */
  lemma WireOfFinishedRun(stdout: seq<byte>, stderr: seq<byte>, code: int, run: seq<Action>) returns (pumped: seq<Block>)
    requires Legal(Init(stdout, stderr, code), run)
    requires Exec(Init(stdout, stderr, code), run).writers[MAIN].pc == Done
    ensures var s := Exec(Init(stdout, stderr, code), run);
            && PumpFrames(pumped)
            && s.wire == Print(Block(ST_OK, [])) + PrintAll(pumped) + Print(Block(STREAM_EXIT, PutU32(code)))
            && Pick(pumped, STREAM_STDOUT) + s.writers[OUT].unread == stdout
            && Pick(pumped, STREAM_STDERR) + s.writers[ERR].unread == stderr
  {
    InvInit(stdout, stderr, code);
    InvRun(Init(stdout, stderr, code), run, stdout, stderr);
    var s := Exec(Init(stdout, stderr, code), run);
    pumped := s.log[..|s.log| - 1];
    FinishedWire(s, pumped);
    PickedAll(s, pumped, OUT, stdout);
    PickedAll(s, pumped, ERR, stderr);
  }

  lemma {:induction false} FinishedWire(s: State, pumped: seq<Block>)
    requires MutexHeld(s) && WireIsFrames(s) && s.writers[MAIN].pc == Done
    requires ExitFrameLast(s) && pumped == s.log[..|s.log| - 1]
    ensures s.mutex == None
    ensures s.wire == Print(Block(ST_OK, [])) + PrintAll(pumped) + Print(Block(STREAM_EXIT, PutU32(s.code)))
  {
    var exit := Print(Block(STREAM_EXIT, PutU32(s.code)));
    assert forall w :: 0 <= w < 3 ==> !Framing(s.writers[w].pc);
    assert PrintAll(s.log) == PrintAll(pumped) + exit;
    Assoc(Print(Block(ST_OK, [])), PrintAll(pumped), exit);
    assert s.wire == Print(Block(ST_OK, [])) + PrintAll(s.log) + [];
  }

  lemma {:induction false} PickedAll(s: State, pumped: seq<Block>, w: nat, input: seq<byte>)
    requires |s.writers| == 3 && w < MAIN && Accounted(s, w, input) && s.writers[w].pc == Done
    requires |s.log| > 0 && pumped == s.log[..|s.log| - 1] && s.log[|s.log| - 1].head == STREAM_EXIT
    ensures Pick(pumped, w) + s.writers[w].unread == input
  {
    assert Pick(s.log, w) == Pick(pumped, w) + [] == Pick(pumped, w);
    assert Pick(s.log, w) + [] == Pick(s.log, w);
  }

  // --- no deadlock ---

  function Phase(pc: Pc): nat {
    match pc
    case Reading => 5
    case Waiting => 4
    case Locked => 3
    case HeaderSent => 2
    case DataSent => 1
    case Done => 0
  }

  /** What a pump still has to do: six steps for a byte would be plenty. */
  function PumpWork(x: Writer): nat {
    6 * (|x.unread| + |x.held|) + Phase(x.pc)
  }

  function Work(s: State): nat
    requires |s.writers| == 3
  {
    PumpWork(s.writers[OUT]) + PumpWork(s.writers[ERR]) + Phase(s.writers[MAIN].pc)
  }

  /** A pump whose read has failed, or that has reached the end. */
  predicate Over(x: Writer) {
    x.pc == Done || (x.last && x.pc != Reading)
  }

  function TakeAll(x: Writer): nat {
    if |x.unread| <= BUF_LEN then |x.unread| else BUF_LEN
  }

  /** What happens next if every read succeeds: the mutex holder goes on, or somebody takes the mutex, or reads. */
  function NextAction(s: State): Action
    requires MutexHeld(s)
  {
    if s.mutex.Some? then
      var w := s.mutex.value;
      if s.writers[w].pc == Locked then SendHeader(w) else if s.writers[w].pc == HeaderSent then SendData(w) else Unlock(w)
    else if s.writers[OUT].pc == Waiting then Lock(OUT)
    else if s.writers[ERR].pc == Waiting then Lock(ERR)
    else if s.writers[MAIN].pc == Waiting then Lock(MAIN)
    else if s.writers[OUT].pc == Reading then Read(OUT, TakeAll(s.writers[OUT]), |s.writers[OUT].unread| <= BUF_LEN)
    else if s.writers[ERR].pc == Reading then Read(ERR, TakeAll(s.writers[ERR]), |s.writers[ERR].unread| <= BUF_LEN)
    else Exit
  }

  lemma NextEnabled(s: State)
    requires MutexHeld(s) && s.writers[MAIN].pc != Done
    requires s.writers[MAIN].pc != Reading ==> s.writers[OUT].pc == Done && s.writers[ERR].pc == Done
    ensures Enabled(s, NextAction(s))
  {
    if s.mutex.Some? {
      assert Framing(s.writers[s.mutex.value].pc);
    } else {
      assert forall w :: 0 <= w < 3 ==> !Framing(s.writers[w].pc);
    }
  }

  /** What a pump has still to read when it goes on in this way: nothing, unless it was over before. */
  function Remains(x: Writer): seq<byte> {
    if Over(x) then x.unread else []
  }

  ghost predicate Progress(s: State, t: State) {
    && |s.writers| == 3 && |t.writers| == 3 && Work(t) < Work(s)
    && Remains(t.writers[OUT]) == Remains(s.writers[OUT]) && Remains(t.writers[ERR]) == Remains(s.writers[ERR])
  }

  /** One goroutine gets on with its work. */
  lemma OneProgresses(s: State, t: State, w: nat, x: Writer)
    requires |s.writers| == 3 && w < 3 && t.writers == s.writers[w := x]
    requires if w == MAIN then Phase(x.pc) < Phase(s.writers[w].pc)
             else PumpWork(x) < PumpWork(s.writers[w]) && Remains(x) == Remains(s.writers[w])
    ensures Progress(s, t)
  {
  }

  lemma ReadWorks(s: State, w: nat)
    requires |s.writers| == 3 && w < MAIN && s.writers[w].pc == Reading && s.writers[w].held == []
    requires Enabled(s, Read(w, TakeAll(s.writers[w]), |s.writers[w].unread| <= BUF_LEN))
    ensures Progress(s, Apply(s, Read(w, TakeAll(s.writers[w]), |s.writers[w].unread| <= BUF_LEN)))
  {
    var t := Apply(s, Read(w, TakeAll(s.writers[w]), |s.writers[w].unread| <= BUF_LEN));
    OneProgresses(s, t, w, t.writers[w]);
  }

  lemma UnlockWorks(s: State, w: nat)
    requires Enabled(s, Unlock(w)) && (w < MAIN ==> s.writers[w].held != []) && (w == MAIN ==> s.writers[w].last)
    ensures Progress(s, Apply(s, Unlock(w)))
  {
    var t := Apply(s, Unlock(w));
    OneProgresses(s, t, w, t.writers[w]);
  }

  lemma FrameWorks(s: State, a: Action)
    requires Enabled(s, a) && (a.Lock? || a.SendHeader? || a.SendData?)
    ensures Progress(s, Apply(s, a))
  {
    var t := Apply(s, a);
    OneProgresses(s, t, a.w, t.writers[a.w]);
  }

  lemma ExitWorks(s: State)
    requires Enabled(s, Exit)
    ensures Progress(s, Apply(s, Exit))
  {
    var t := Apply(s, Exit);
    OneProgresses(s, t, MAIN, t.writers[MAIN]);
  }

  lemma NextWorks(s: State, stdout: seq<byte>, stderr: seq<byte>)
    requires Inv(s, stdout, stderr) && s.writers[MAIN].pc != Done && Enabled(s, NextAction(s))
    ensures Progress(s, Apply(s, NextAction(s)))
  {
    match NextAction(s)
    case Read(w, _, _) => ReadWorks(s, w);
    case Unlock(w) => UnlockWorks(s, w);
    case Exit => ExitWorks(s);
    case _ => FrameWorks(s, NextAction(s));
  }

  lemma NextStep(s: State, stdout: seq<byte>, stderr: seq<byte>) returns (a: Action, t: State)
    requires Inv(s, stdout, stderr) && s.writers[MAIN].pc != Done
    ensures Enabled(s, a) && t == Apply(s, a) && Inv(t, stdout, stderr) && Progress(s, t)
  {
    a := NextAction(s);
    NextEnabled(s);
    NextWorks(s, stdout, stderr);
    InvStep(s, a, stdout, stderr);
    t := Apply(s, a);
  }

  /** The exit frame is sent, and each pump has read what it could. */
  ghost predicate FinishedFrom(s: State, t: State) {
    && |s.writers| == 3 && |t.writers| == 3 && t.writers[MAIN].pc == Done
    && t.writers[OUT].unread == Remains(s.writers[OUT]) && t.writers[ERR].unread == Remains(s.writers[ERR])
  }

  lemma DoneFinished(s: State, stdout: seq<byte>, stderr: seq<byte>)
    requires Inv(s, stdout, stderr) && s.writers[MAIN].pc == Done
    ensures FinishedFrom(s, s)
  {
  }

  lemma {:induction false} CanFinish(s: State, stdout: seq<byte>, stderr: seq<byte>) returns (more: seq<Action>)
    requires Inv(s, stdout, stderr)
    ensures Legal(s, more) && FinishedFrom(s, Exec(s, more))
    decreases Work(s)
  {
    if s.writers[MAIN].pc == Done {
      DoneFinished(s, stdout, stderr);
      more := [];
    } else {
      var a, t := NextStep(s, stdout, stderr);
      var rest := CanFinish(t, stdout, stderr);
      more := [a] + rest;
      ExecCons(s, a, t, rest);
    }
  }

  lemma {:induction false} ExecCons(s: State, a: Action, t: State, rest: seq<Action>)
    requires Enabled(s, a) && t == Apply(s, a) && Legal(t, rest)
    ensures Legal(s, [a] + rest) && Exec(s, [a] + rest) == Exec(t, rest)
  {
    assert ([a] + rest)[1..] == rest;
  }

  lemma {:induction false} ExecAppend(s: State, run: seq<Action>, more: seq<Action>)
    requires Legal(s, run) && Legal(Exec(s, run), more)
    ensures Legal(s, run + more) && Exec(s, run + more) == Exec(Exec(s, run), more)
    decreases |run|
  {
    if |run| == 0 {
      assert run + more == more;
    } else {
      ExecAppend(Apply(s, run[0]), run[1..], more);
      assert (run + more)[1..] == run[1..] + more;
    }
  }

  /**
   * No deadlock: every run can go on until the exit frame is sent, and so that each pump that is not over yet
   * reads all its process has for it.
   */
  lemma NeverStuck(stdout: seq<byte>, stderr: seq<byte>, code: int, run: seq<Action>) returns (more: seq<Action>)
    requires Legal(Init(stdout, stderr, code), run)
    ensures Legal(Init(stdout, stderr, code), run + more)
    ensures var s, t := Exec(Init(stdout, stderr, code), run), Exec(Init(stdout, stderr, code), run + more);
            FinishedFrom(s, t)
  {
    InvInit(stdout, stderr, code);
    InvRun(Init(stdout, stderr, code), run, stdout, stderr);
    more := CanFinish(Exec(Init(stdout, stderr, code), run), stdout, stderr);
    ExecAppend(Init(stdout, stderr, code), run, more);
  }
}
