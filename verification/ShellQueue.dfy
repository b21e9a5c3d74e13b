/**
 * Many commands over one shell: the promise chain that serializes them, timeouts, and the shell's own
 * stream, which delivers late output of a command that was given up on to whoever listens next.
 */
module ShellQueue {
  import opened Basics
  import opened Decimals
  import opened ShellFraming

  /** A command as the server and the remote shell see it: its nonce marker, and what running it produces. */
  datatype Cmd = Cmd(marker: string, output: string, code: nat)

  /** `late` is what of earlier commands' replies had not arrived when this one was written. */
  datatype Listener = Listener(cmd: nat, buf: string, late: string)
  datatype Outcome = Pending | NotAlive | TimedOut | Done(result: ShellResult, late: string)

  datatype State = State(
    submitted: nat,            // runShellCommand calls so far: the first this many of all commands
    started: nat,              // doRunShellCommand calls so far
    outcomes: seq<Outcome>,
    listeners: seq<Listener>,  // data handlers attached to the shell's stdout
    written: seq<nat>,         // commands written to the shell's stdin, in order
    arrived: nat)              // how much of the shell's stdout has been delivered

  datatype Action = Submit | Start(alive: bool) | Deliver(n: nat) | Timeout

  /** Everything the shell prints for the commands written to it. */
  function Stream(cmds: seq<Cmd>, written: seq<nat>): string
    requires forall i :: 0 <= i < |written| ==> written[i] < |cmds|
  {
    if |written| == 0 then ""
    else
      var c := cmds[written[|written| - 1]];
      Stream(cmds, written[..|written| - 1]) + Reply(c.marker, c.output, c.code)
  }

  function Init(cmds: seq<Cmd>): State {
    State(0, 0, seq(|cmds|, i => Pending), [], [], 0)
  }

  predicate Wellformed(cmds: seq<Cmd>, s: State) {
    && |s.outcomes| == |cmds|
    && (forall i :: 0 <= i < |s.written| ==> s.written[i] < |cmds|)
    && (forall i :: 0 <= i < |s.listeners| ==> s.listeners[i].cmd < |cmds|)
    && s.submitted <= |cmds|
    && s.arrived <= |Stream(cmds, s.written)|
  }

  predicate Enabled(cmds: seq<Cmd>, s: State, a: Action) {
    && Wellformed(cmds, s)
    && match a
       case Submit => s.submitted < |cmds|
       // execQueue.then: the previous command's promise has settled, one way or the other
       case Start(_) => s.started < s.submitted && (s.started > 0 ==> s.outcomes[s.started - 1] != Pending)
       case Deliver(n) => s.arrived + n <= |Stream(cmds, s.written)|
       case Timeout => |s.listeners| > 0
  }

  /** Every attached handler gets the chunk; one that finds its marker line settles and detaches. */
  function Hear(cmds: seq<Cmd>, ls: seq<Listener>, chunk: string, outcomes: seq<Outcome>): (r: (seq<Listener>, seq<Outcome>))
    requires |outcomes| == |cmds|
    requires forall i :: 0 <= i < |ls| ==> ls[i].cmd < |cmds|
    ensures |r.1| == |outcomes|
    ensures forall i :: 0 <= i < |r.0| ==> r.0[i].cmd < |cmds|
  {
    if |ls| == 0 then ([], outcomes)
    else
      var l := ls[0].(buf := ls[0].buf + chunk);
      var rest := Hear(cmds, ls[1..], chunk, outcomes);
      var found := Scan(cmds[l.cmd].marker, l.buf);
      if found == None then ([l] + rest.0, rest.1) else (rest.0, rest.1[l.cmd := Done(found.value, l.late)])
  }

  function Apply(cmds: seq<Cmd>, s: State, a: Action): State
    requires Enabled(cmds, s, a)
  {
    match a
    case Submit => s.(submitted := s.submitted + 1)
    case Start(alive) =>
      if !alive then s.(started := s.started + 1, outcomes := s.outcomes[s.started := NotAlive])
      else
        s.(started := s.started + 1,
           listeners := s.listeners + [Listener(s.started, "", Stream(cmds, s.written)[s.arrived..])],
           written := s.written + [s.started])
    case Deliver(n) =>
      var heard := Hear(cmds, s.listeners, Stream(cmds, s.written)[s.arrived..s.arrived + n], s.outcomes);
      s.(listeners := heard.0, outcomes := heard.1, arrived := s.arrived + n)
    case Timeout =>
      s.(listeners := s.listeners[1..], outcomes := s.outcomes[s.listeners[0].cmd := TimedOut])
  }

  predicate Legal(cmds: seq<Cmd>, run: seq<Action>)
    decreases |run|, 0
  {
    |run| == 0 || (
      var front := run[..|run| - 1];
      Legal(cmds, front) && Enabled(cmds, Exec(cmds, front), run[|run| - 1]))
  }

  function Exec(cmds: seq<Cmd>, run: seq<Action>): State
    requires Legal(cmds, run)
    decreases |run|, 1
  {
    if |run| == 0 then Init(cmds) else Apply(cmds, Exec(cmds, run[..|run| - 1]), run[|run| - 1])
  }

  // --- what random nonces give ---

  /** No line of the text, and no tail of one, is a marker line for this marker. */
  ghost predicate Clean(marker: string, text: string) {
    forall i, k :: 0 <= i < |Split(text, NL)| && 0 <= k <= |Split(text, NL)[i]|
      ==> MarkerCode(marker, Split(text, NL)[i][k..]) == None
  }

  /** Markers are distinct, of one length and on one line, and occur in no command's output. */
  ghost predicate Nonces(cmds: seq<Cmd>) {
    && (forall i :: 0 <= i < |cmds| ==> NL !in cmds[i].marker && ':' !in cmds[i].marker)
    && (forall i, j :: 0 <= i < |cmds| && 0 <= j < |cmds| ==> |cmds[i].marker| == |cmds[j].marker|)
    && (forall i, j :: 0 <= i < j < |cmds| ==> cmds[i].marker != cmds[j].marker)
    && OutputsClean(cmds)
  }

  lemma ExitMarkerText(id: string)
    requires NL !in id && ':' !in id
    ensures NL !in ExitMarker(id) && ':' !in ExitMarker(id)
    ensures |ExitMarker(id)| == |EXIT_PREFIX| + |id| + |EXIT_SUFFIX|
    ensures ExitMarker(id)[|EXIT_PREFIX|..|EXIT_PREFIX| + |id|] == id
  {
    assert NL !in EXIT_PREFIX && ':' !in EXIT_PREFIX;
    assert NL !in EXIT_SUFFIX && ':' !in EXIT_SUFFIX;
  }

  ghost predicate OutputsClean(cmds: seq<Cmd>) {
    forall i, j :: 0 <= i < |cmds| && 0 <= j < |cmds| ==> Clean(cmds[i].marker, cmds[j].output)
  }

  /** Request ids of one length, all different, give such markers. */
  lemma NoncesFromIds(cmds: seq<Cmd>, ids: seq<string>)
    requires |ids| == |cmds| && forall i :: 0 <= i < |cmds| ==> cmds[i].marker == ExitMarker(ids[i])
    requires forall i :: 0 <= i < |ids| ==> NL !in ids[i] && ':' !in ids[i]
    requires forall i, j :: 0 <= i < |ids| && 0 <= j < |ids| ==> |ids[i]| == |ids[j]|
    requires forall i, j :: 0 <= i < j < |ids| ==> ids[i] != ids[j]
    requires OutputsClean(cmds)
    ensures Nonces(cmds)
  {
    forall i | 0 <= i < |cmds|
      ensures NL !in cmds[i].marker && ':' !in cmds[i].marker
      ensures |cmds[i].marker| == |EXIT_PREFIX| + |ids[i]| + |EXIT_SUFFIX|
      ensures cmds[i].marker[|EXIT_PREFIX|..|EXIT_PREFIX| + |ids[i]|] == ids[i]
    {
      ExitMarkerText(ids[i]);
    }
  }

  lemma CleanGlue(marker: string, a: string, b: string)
    requires Clean(marker, a) && Clean(marker, b)
    ensures Clean(marker, a + [NL] + b)
  {
    SplitAppend(a, NL, b);
  }

  lemma {:induction false} CleanSuffix(marker: string, text: string, from: nat)
    requires Clean(marker, text) && from <= |text|
    ensures Clean(marker, text[from..])
    decreases from
  {
    if from > 0 {
      var parts, rest := Split(text, NL), Split(text[1..], NL);
      forall i, k | 0 <= i < |rest| && 0 <= k <= |rest[i]|
        ensures MarkerCode(marker, rest[i][k..]) == None
      {
        if text[0] == NL {
          assert parts[i + 1] == rest[i];
        } else if i == 0 {
          assert parts[0][k + 1..] == rest[0][k..];
        } else {
          assert parts[i] == rest[i];
        }
      }
      CleanSuffix(marker, text[1..], from - 1);
      assert text[1..][from - 1..] == text[from..];
    } else {
      assert text[0..] == text;
    }
  }

  lemma MarkerInMarkerLine(marker: string, other: string, code: nat, k: nat)
    requires |marker| == |other| && ':' !in other
    requires k <= |MarkerLine(other, code)| && marker + ":" <= MarkerLine(other, code)[k..]
    ensures k == 0 && marker == other
  {
    var line := MarkerLine(other, code);
    assert line[k + |marker|] == line[k..][|marker|] == ':';
    assert forall j :: |other| < j < |line| ==> line[j] == Decimal(code)[j - |other| - 1];
    assert line[k..][..|marker|] == marker;
    assert line[..|other|] == other;
  }

  lemma OtherMarkerLine(marker: string, other: string, code: nat)
    requires |marker| == |other| && marker != other && ':' !in other && NL !in other
    ensures Clean(marker, MarkerLine(other, code))
  {
    var line := MarkerLine(other, code);
    MarkerLineFree(other, code);
    SplitNoSep(line, NL);
    forall k | 0 <= k <= |line|
      ensures MarkerCode(marker, line[k..]) == None
    {
      if marker + ":" <= line[k..] {
        MarkerInMarkerLine(marker, other, code, k);
      }
    }
  }

  lemma CleanReply(marker: string, before: string, c: Cmd, output: string)
    requires Clean(marker, before + c.output) && Clean(marker, MarkerLine(c.marker, c.code)) && Clean(marker, output)
    ensures Clean(marker, before + Reply(c.marker, c.output, c.code) + output)
  {
    var body, line := before + c.output, MarkerLine(c.marker, c.code);
    CleanGlue(marker, body, line);
    CleanGlue(marker, body + [NL] + line, output);
    assert before + Reply(c.marker, c.output, c.code) + output == body + [NL] + line + [NL] + output;
  }

  /** Appending an output to whole replies starts it on a line of its own. */
  lemma {:induction false} StreamClean(cmds: seq<Cmd>, written: seq<nat>, i: nat, output: string)
    requires Nonces(cmds) && i < |cmds|
    requires forall j :: 0 <= j < |written| ==> written[j] < |cmds| && written[j] != i
    requires Clean(cmds[i].marker, output)
    ensures Clean(cmds[i].marker, Stream(cmds, written) + output)
    decreases |written|
  {
    var marker := cmds[i].marker;
    if |written| == 0 {
      assert "" + output == output;
    } else {
      var front, c := written[..|written| - 1], cmds[written[|written| - 1]];
      StreamClean(cmds, front, i, c.output);
      OtherMarkerLine(marker, c.marker, c.code);
      CleanReply(marker, Stream(cmds, front), c, output);
    }
  }

  lemma CleanHasNoMarker(marker: string, output: string)
    requires Clean(marker, output)
    ensures NoMarkerLine(marker, output)
  {
    var parts := Split(output, NL);
    forall j | 0 <= j < |parts|
      ensures MarkerCode(marker, parts[j]) == None
    {
      assert parts[j][0..] == parts[j];
    }
    FirstMarkerAt(marker, parts, |parts|);
    NoMarkerFound(marker, output);
  }

  // --- the invariant ---

  /** Submission order, and which commands have settled. */
  ghost predicate Ordered(cmds: seq<Cmd>, s: State) {
    && Wellformed(cmds, s)
    && s.started <= s.submitted
    && (forall i :: s.started <= i < |cmds| ==> s.outcomes[i] == Pending)
    && (forall i :: 0 <= i < s.started - |s.listeners| ==> s.outcomes[i] != Pending)
    && (forall i, j :: 0 <= i < j < |s.written| ==> s.written[i] < s.written[j])
    && (forall i :: 0 <= i < |s.written| ==> s.written[i] < s.started && s.outcomes[s.written[i]] != NotAlive)
  }

  /** A listener holds exactly what arrived since its command was written, and not yet a result. */
  ghost predicate Listening(c: Cmd, l: Listener, undelivered: string) {
    && undelivered != ""
    && l.late + Reply(c.marker, c.output, c.code) == l.buf + undelivered
    && Clean(c.marker, l.late + c.output)
  }

  /** There is one listener at most, for the command started last. */
  ghost predicate Attached(cmds: seq<Cmd>, s: State)
    requires Wellformed(cmds, s)
  {
    && |s.listeners| <= 1
    && (|s.listeners| == 1 ==>
          var l := s.listeners[0];
          && l.cmd + 1 == s.started && l.cmd < |cmds| && s.outcomes[l.cmd] == Pending
          && Listening(cmds[l.cmd], l, Stream(cmds, s.written)[s.arrived..]))
  }

  ghost predicate Sound(cmds: seq<Cmd>, outcomes: seq<Outcome>)
    requires |outcomes| == |cmds|
  {
    forall i :: 0 <= i < |cmds| && outcomes[i].Done? ==>
      outcomes[i].result == ShellResult(StripNewline(outcomes[i].late + cmds[i].output), cmds[i].code)
  }

  ghost predicate Inv(cmds: seq<Cmd>, s: State) {
    Ordered(cmds, s) && Attached(cmds, s) && Sound(cmds, s.outcomes)
  }

  lemma {:induction false} StreamGrows(cmds: seq<Cmd>, written: seq<nat>, i: nat)
    requires i < |cmds| && forall j :: 0 <= j < |written| ==> written[j] < |cmds|
    ensures forall j :: 0 <= j <= |written| ==> (written + [i])[j] < |cmds|
    ensures Stream(cmds, written + [i]) == Stream(cmds, written) + Reply(cmds[i].marker, cmds[i].output, cmds[i].code)
  {
    assert (written + [i])[..|written|] == written;
  }

  lemma StartListening(c: Cmd, i: nat, before: string, arrived: nat)
    requires arrived <= |before| && Clean(c.marker, before + c.output)
    ensures Listening(c, Listener(i, "", before[arrived..]), (before + Reply(c.marker, c.output, c.code))[arrived..])
  {
    var reply := Reply(c.marker, c.output, c.code);
    assert (before + reply)[arrived..] == before[arrived..] + reply;
    assert "" + (before[arrived..] + reply) == before[arrived..] + reply;
    CleanSuffix(c.marker, before + c.output, arrived);
    assert (before + c.output)[arrived..] == before[arrived..] + c.output;
  }

  lemma {:induction false} OrderedStart(cmds: seq<Cmd>, s: State, t: State, l: Listener)
    requires Ordered(cmds, s) && s.listeners == [] && s.started < s.submitted && l.cmd == s.started
    requires t == s.(started := s.started + 1, listeners := [l], written := s.written + [s.started])
    requires |Stream(cmds, s.written)| <= |Stream(cmds, t.written)|
    ensures Ordered(cmds, t)
  {
  }

  lemma InvStart(cmds: seq<Cmd>, s: State)
    requires Nonces(cmds) && Inv(cmds, s) && Enabled(cmds, s, Start(true))
    ensures Inv(cmds, Apply(cmds, s, Start(true)))
  {
    var i, before := s.started, Stream(cmds, s.written);
    var l, written := Listener(i, "", before[s.arrived..]), s.written + [i];
    assert s.listeners == [] && [] + [l] == [l];
    StreamGrows(cmds, s.written, i);
    StreamClean(cmds, s.written, i, cmds[i].output);
    StartListening(cmds[i], i, before, s.arrived);
    var t := s.(started := i + 1, listeners := [l], written := written);
    OrderedStart(cmds, s, t, l);
    AttachedStart(cmds, t, l);
    assert Apply(cmds, s, Start(true)) == t;
  }

  lemma {:induction false} AttachedStart(cmds: seq<Cmd>, t: State, l: Listener)
    requires Wellformed(cmds, t) && t.listeners == [l] && l.cmd + 1 == t.started && l.cmd < |cmds| && t.outcomes[l.cmd] == Pending
    requires Listening(cmds[l.cmd], l, Stream(cmds, t.written)[t.arrived..])
    ensures Attached(cmds, t)
  {
  }

  lemma ReplyWithLate(late: string, c: Cmd)
    ensures late + Reply(c.marker, c.output, c.code) == Reply(c.marker, late + c.output, c.code)
  {
  }

  lemma {:induction false} HearOne(cmds: seq<Cmd>, l: Listener, chunk: string, outcomes: seq<Outcome>, found: Option<ShellResult>)
    requires |outcomes| == |cmds| && l.cmd < |cmds|
    requires found == Scan(cmds[l.cmd].marker, l.buf + chunk)
    ensures found == None ==> Hear(cmds, [l], chunk, outcomes) == ([l.(buf := l.buf + chunk)], outcomes)
    ensures found.Some? ==> Hear(cmds, [l], chunk, outcomes) == ([], outcomes[l.cmd := Done(found.value, l.late)])
  {
    assert [l][1..] == [];
    assert [l.(buf := l.buf + chunk)] + [] == [l.(buf := l.buf + chunk)];
  }

  /** A listener settles just when the last byte of its command's reply arrives, with the exact result. */
  lemma HeardScan(c: Cmd, late: string, buf: string, missing: string)
    requires NL !in c.marker && Clean(c.marker, late + c.output)
    requires late + Reply(c.marker, c.output, c.code) == buf + missing
    ensures Scan(c.marker, buf)
         == if missing == "" then Some(ShellResult(StripNewline(late + c.output), c.code)) else None
  {
    ReplyWithLate(late, c);
    CleanHasNoMarker(c.marker, late + c.output);
    if missing == "" {
      assert buf + missing == buf;
      FramingExact(c.marker, late + c.output, c.code);
      ReplyText(c.marker, late + c.output, c.code);
    } else {
      NothingEarly(c.marker, late + c.output, c.code, buf);
    }
  }

  /** What a chunk does to a listener. */
  lemma HeardChunk(c: Cmd, l: Listener, chunk: string, missing: string)
    requires NL !in c.marker && Listening(c, l, chunk + missing)
    ensures missing != "" ==> Listening(c, l.(buf := l.buf + chunk), missing)
    ensures Scan(c.marker, l.buf + chunk)
         == if missing == "" then Some(ShellResult(StripNewline(l.late + c.output), c.code)) else None
  {
    Assoc(l.buf, chunk, missing);
    HeardScan(c, l.late, l.buf + chunk, missing);
  }

  lemma Delivered(text: string, arrived: nat, n: nat)
    requires arrived + n <= |text|
    ensures text[arrived..] == text[arrived..arrived + n] + text[arrived + n..]
    ensures text[arrived + n..] == "" <==> arrived + n == |text|
  {
  }

  lemma InvDeliver(cmds: seq<Cmd>, s: State, n: nat)
    requires Nonces(cmds) && Inv(cmds, s) && Enabled(cmds, s, Deliver(n))
    ensures Inv(cmds, Apply(cmds, s, Deliver(n)))
  {
    if |s.listeners| == 1 {
      var l, stream := s.listeners[0], Stream(cmds, s.written);
      var chunk, missing := stream[s.arrived..s.arrived + n], stream[s.arrived + n..];
      assert s.listeners == [l];
      Delivered(stream, s.arrived, n);
      HeardChunk(cmds[l.cmd], l, chunk, missing);
      DeliverOne(cmds, s, l, n, chunk, Scan(cmds[l.cmd].marker, l.buf + chunk));
      InvHeard(cmds, s, l, s.arrived + n, chunk, missing);
    } else {
      assert s.listeners == [];
    }
  }

  lemma {:induction false} InvHeard(cmds: seq<Cmd>, s: State, l: Listener, arrived: nat, chunk: string, missing: string)
    requires Inv(cmds, s) && s.listeners == [l] && l.cmd < |cmds| && arrived <= |Stream(cmds, s.written)|
    requires missing == Stream(cmds, s.written)[arrived..]
    requires missing != "" ==> Listening(cmds[l.cmd], l.(buf := l.buf + chunk), missing)
    ensures var result := ShellResult(StripNewline(l.late + cmds[l.cmd].output), cmds[l.cmd].code);
            Inv(cmds, if missing == "" then s.(listeners := [], outcomes := s.outcomes[l.cmd := Done(result, l.late)], arrived := arrived)
                      else s.(listeners := [l.(buf := l.buf + chunk)], arrived := arrived))
  {
    if missing == "" {
      InvSettled(cmds, s, arrived, l, Done(ShellResult(StripNewline(l.late + cmds[l.cmd].output), cmds[l.cmd].code), l.late));
    } else {
      InvListening(cmds, s, arrived, l, l.(buf := l.buf + chunk));
    }
  }

  lemma {:induction false} DeliverOne(cmds: seq<Cmd>, s: State, l: Listener, n: nat, chunk: string, found: Option<ShellResult>)
    requires Enabled(cmds, s, Deliver(n)) && s.listeners == [l] && l.cmd < |cmds|
    requires chunk == Stream(cmds, s.written)[s.arrived..s.arrived + n]
    requires found == Scan(cmds[l.cmd].marker, l.buf + chunk)
    ensures Apply(cmds, s, Deliver(n)) ==
              if found == None then s.(listeners := [l.(buf := l.buf + chunk)], arrived := s.arrived + n)
              else s.(listeners := [], outcomes := s.outcomes[l.cmd := Done(found.value, l.late)], arrived := s.arrived + n)
  {
    var heard := Hear(cmds, [l], chunk, s.outcomes);
    HearOne(cmds, l, chunk, s.outcomes, found);
    assert Apply(cmds, s, Deliver(n)) == s.(listeners := heard.0, outcomes := heard.1, arrived := s.arrived + n);
  }

  lemma {:induction false} InvSettled(cmds: seq<Cmd>, s: State, arrived: nat, l: Listener, o: Outcome)
    requires Inv(cmds, s) && s.listeners == [l] && arrived <= |Stream(cmds, s.written)|
    requires o == TimedOut || (o.Done? && o.result == ShellResult(StripNewline(o.late + cmds[l.cmd].output), cmds[l.cmd].code))
    ensures Inv(cmds, s.(listeners := [], outcomes := s.outcomes[l.cmd := o], arrived := arrived))
  {
  }

  lemma {:induction false} InvListening(cmds: seq<Cmd>, s: State, arrived: nat, l: Listener, heard: Listener)
    requires Inv(cmds, s) && s.listeners == [l] && arrived <= |Stream(cmds, s.written)|
    requires heard.cmd == l.cmd && Listening(cmds[l.cmd], heard, Stream(cmds, s.written)[arrived..])
    ensures Inv(cmds, s.(listeners := [heard], arrived := arrived))
  {
  }

  lemma InvStep(cmds: seq<Cmd>, s: State, a: Action)
    requires Nonces(cmds) && Inv(cmds, s) && Enabled(cmds, s, a)
    ensures Inv(cmds, Apply(cmds, s, a))
  {
    match a
    case Submit => InvSubmit(cmds, s);
    case Start(alive) => if alive { InvStart(cmds, s); } else { InvNotAlive(cmds, s); }
    case Deliver(n) => InvDeliver(cmds, s, n);
    case Timeout => InvTimeout(cmds, s);
  }

  lemma InvSubmit(cmds: seq<Cmd>, s: State)
    requires Inv(cmds, s) && s.submitted < |cmds|
    ensures Inv(cmds, s.(submitted := s.submitted + 1))
  {
  }

  lemma InvNotAlive(cmds: seq<Cmd>, s: State)
    requires Inv(cmds, s) && Enabled(cmds, s, Start(false))
    ensures Inv(cmds, s.(started := s.started + 1, outcomes := s.outcomes[s.started := NotAlive]))
  {
    assert s.listeners == [];
  }

  lemma InvTimeout(cmds: seq<Cmd>, s: State)
    requires Inv(cmds, s) && Enabled(cmds, s, Timeout)
    ensures Inv(cmds, Apply(cmds, s, Timeout))
  {
    var l := s.listeners[0];
    assert s.listeners == [l] && s.listeners[1..] == [];
    InvSettled(cmds, s, s.arrived, l, TimedOut);
  }

  lemma {:induction false} InvRun(cmds: seq<Cmd>, run: seq<Action>)
    requires Nonces(cmds) && Legal(cmds, run)
    ensures Inv(cmds, Exec(cmds, run))
    decreases |run|
  {
    if |run| > 0 {
      InvRun(cmds, run[..|run| - 1]);
      InvStep(cmds, Exec(cmds, run[..|run| - 1]), run[|run| - 1]);
    }
  }

  // --- what late output is ---

  /** Step k of the run wrote command i, when just this much of what the shell prints had not been delivered. */
  ghost predicate WrittenAt(cmds: seq<Cmd>, run: seq<Action>, k: nat, i: nat, late: string) {
    && k < |run| && run[k] == Start(true) && Legal(cmds, run[..k])
    && var s := Exec(cmds, run[..k]);
       Wellformed(cmds, s) && s.started == i && late == Stream(cmds, s.written)[s.arrived..]
  }

  ghost predicate Explained(cmds: seq<Cmd>, run: seq<Action>, i: nat, late: string) {
    exists k: nat :: WrittenAt(cmds, run, k, i, late)
  }

  /** Every listener and every result carries the late output of the moment its command was written. */
  ghost predicate AllExplained(cmds: seq<Cmd>, run: seq<Action>, s: State) {
    && (forall i: nat :: i < |s.outcomes| && s.outcomes[i].Done? ==> Explained(cmds, run, i, s.outcomes[i].late))
    && (forall j: nat :: j < |s.listeners| ==> Explained(cmds, run, s.listeners[j].cmd, s.listeners[j].late))
  }

  lemma ExplainedLater(cmds: seq<Cmd>, run: seq<Action>, i: nat, late: string)
    requires |run| > 0 && Explained(cmds, run[..|run| - 1], i, late)
    ensures Explained(cmds, run, i, late)
  {
    var front := run[..|run| - 1];
    var k: nat :| WrittenAt(cmds, front, k, i, late);
    assert front[..k] == run[..k];
    assert WrittenAt(cmds, run, k, i, late);
  }

  /** A step other than writing a command passes on the late output it finds. */
  ghost predicate PassesOn(s: State, t: State) {
    && |s.outcomes| == |t.outcomes|
    && (forall i: nat :: i < |t.outcomes| && t.outcomes[i].Done? ==>
          t.outcomes[i] == s.outcomes[i] || Held(s, i, t.outcomes[i].late))
    && (forall i: nat :: i < |t.listeners| ==> Held(s, t.listeners[i].cmd, t.listeners[i].late))
  }

  ghost predicate Held(s: State, cmd: nat, late: string) {
    exists j: nat :: j < |s.listeners| && s.listeners[j].cmd == cmd && s.listeners[j].late == late
  }

  lemma {:induction false} HearPassesOn(cmds: seq<Cmd>, s: State, t: State, n: nat)
    requires Enabled(cmds, s, Deliver(n)) && |s.listeners| <= 1 && t == Apply(cmds, s, Deliver(n))
    ensures PassesOn(s, t)
  {
    if |s.listeners| == 1 {
      var l, chunk := s.listeners[0], Stream(cmds, s.written)[s.arrived..s.arrived + n];
      assert s.listeners == [l] && Held(s, l.cmd, l.late);
      DeliverOne(cmds, s, l, n, chunk, Scan(cmds[l.cmd].marker, l.buf + chunk));
    }
  }

  lemma TimeoutPassesOn(cmds: seq<Cmd>, s: State, t: State)
    requires Enabled(cmds, s, Timeout) && t == Apply(cmds, s, Timeout)
    ensures PassesOn(s, t)
  {
    forall i: nat | i < |t.listeners|
      ensures Held(s, t.listeners[i].cmd, t.listeners[i].late)
    {
      assert t.listeners[i] == s.listeners[i + 1];
    }
  }

  lemma SamePassesOn(s: State, t: State)
    requires |s.outcomes| == |t.outcomes| && t.listeners == s.listeners
    requires forall i :: 0 <= i < |t.outcomes| && t.outcomes[i].Done? ==> t.outcomes[i] == s.outcomes[i]
    ensures PassesOn(s, t)
  {
    forall i: nat | i < |t.listeners|
      ensures Held(s, t.listeners[i].cmd, t.listeners[i].late)
    {
      assert t.listeners[i] == s.listeners[i];
    }
  }

  lemma ExplainedStep(cmds: seq<Cmd>, run: seq<Action>, s: State, t: State)
    requires |run| > 0 && AllExplained(cmds, run[..|run| - 1], s) && PassesOn(s, t)
    ensures AllExplained(cmds, run, t)
  {
    forall i: nat | i < |t.outcomes| && t.outcomes[i].Done?
      ensures Explained(cmds, run, i, t.outcomes[i].late)
    {
      ExplainedLater(cmds, run, i, t.outcomes[i].late);
    }
    forall i: nat | i < |t.listeners|
      ensures Explained(cmds, run, t.listeners[i].cmd, t.listeners[i].late)
    {
      ExplainedLater(cmds, run, t.listeners[i].cmd, t.listeners[i].late);
    }
  }

  lemma {:induction false} ExplainedStart(cmds: seq<Cmd>, run: seq<Action>, s: State, t: State)
    requires |run| > 0 && run[|run| - 1] == Start(true) && Legal(cmds, run)
    requires s == Exec(cmds, run[..|run| - 1]) && t == Exec(cmds, run) && s.listeners == []
    requires AllExplained(cmds, run[..|run| - 1], s)
    ensures AllExplained(cmds, run, t)
  {
    var l := Listener(s.started, "", Stream(cmds, s.written)[s.arrived..]);
    assert t.listeners == [l];
    assert WrittenAt(cmds, run, |run| - 1, l.cmd, l.late);
    forall i: nat | i < |t.outcomes| && t.outcomes[i].Done?
      ensures Explained(cmds, run, i, t.outcomes[i].late)
    {
      ExplainedLater(cmds, run, i, t.outcomes[i].late);
    }
  }

  lemma {:induction false} ExplainedRun(cmds: seq<Cmd>, run: seq<Action>)
    requires Nonces(cmds) && Legal(cmds, run)
    ensures AllExplained(cmds, run, Exec(cmds, run))
    decreases |run|
  {
    if |run| > 0 {
      ExplainedRun(cmds, run[..|run| - 1]);
      InvRun(cmds, run[..|run| - 1]);
      NotBlocked(cmds, Exec(cmds, run[..|run| - 1]), true);
      ExplainedNext(cmds, run, Exec(cmds, run[..|run| - 1]), Exec(cmds, run));
    }
  }

  lemma {:induction false} ExplainedNext(cmds: seq<Cmd>, run: seq<Action>, s: State, t: State)
    requires |run| > 0 && Legal(cmds, run) && s == Exec(cmds, run[..|run| - 1]) && t == Exec(cmds, run)
    requires |s.listeners| <= 1 && (run[|run| - 1] == Start(true) ==> s.listeners == [])
    requires AllExplained(cmds, run[..|run| - 1], s)
    ensures AllExplained(cmds, run, t)
  {
    match run[|run| - 1]
    case Start(alive) =>
      if alive {
        ExplainedStart(cmds, run, s, t);
      } else {
        SamePassesOn(s, t);
        ExplainedStep(cmds, run, s, t);
      }
    case Submit =>
      SamePassesOn(s, t);
      ExplainedStep(cmds, run, s, t);
    case Deliver(n) =>
      HearPassesOn(cmds, s, t, n);
      ExplainedStep(cmds, run, s, t);
    case Timeout =>
      TimeoutPassesOn(cmds, s, t);
      ExplainedStep(cmds, run, s, t);
  }

  /**
   * Safety over every run: commands are written in submission order, at most one listener is attached, and
   * a command that settles gets its own exit code, even when late output of timed-out ones came first. Its
   * stdout is that late output followed by its own; the late output is exactly what the shell prints for
   * the commands written before and had not been delivered when this one was written.
   */
  lemma {:induction false} QueueSafety(cmds: seq<Cmd>, run: seq<Action>)
    requires Nonces(cmds) && Legal(cmds, run)
    ensures var s := Exec(cmds, run);
            && |s.outcomes| == |cmds|
            && (forall i, j :: 0 <= i < j < |s.written| ==> s.written[i] < s.written[j])
            && |s.listeners| <= 1
            && (forall i :: 0 <= i < |cmds| && s.outcomes[i].Done? ==>
                  && Explained(cmds, run, i, s.outcomes[i].late)
                  && s.outcomes[i].result == ShellResult(StripNewline(s.outcomes[i].late + cmds[i].output), cmds[i].code))
  {
    InvRun(cmds, run);
    ExplainedRun(cmds, run);
  }

  /** Nothing is outstanding between commands. */
  ghost predicate Punctual(cmds: seq<Cmd>, s: State)
    requires Wellformed(cmds, s)
  {
    && (s.listeners == [] ==> s.arrived == |Stream(cmds, s.written)|)
    && (forall i :: 0 <= i < |s.listeners| ==> s.listeners[i].late == "")
    && (forall i :: 0 <= i < |cmds| && s.outcomes[i].Done? ==> s.outcomes[i].late == "")
  }

  lemma PunctualStep(cmds: seq<Cmd>, s: State, a: Action)
    requires Nonces(cmds) && Inv(cmds, s) && Punctual(cmds, s) && Enabled(cmds, s, a) && a != Timeout
    ensures Wellformed(cmds, Apply(cmds, s, a)) && Punctual(cmds, Apply(cmds, s, a))
  {
    InvStep(cmds, s, a);
    match a
    case Submit =>
    case Start(alive) => PunctualStart(cmds, s, alive);
    case Deliver(n) =>
      if |s.listeners| == 1 {
        assert s.listeners == [s.listeners[0]];
        PunctualDeliver(cmds, s, s.listeners[0], n);
      } else {
        assert s.listeners == [];
      }
  }

  lemma PunctualStart(cmds: seq<Cmd>, s: State, alive: bool)
    requires Inv(cmds, s) && Punctual(cmds, s) && Enabled(cmds, s, Start(alive))
    requires Wellformed(cmds, Apply(cmds, s, Start(alive)))
    ensures Punctual(cmds, Apply(cmds, s, Start(alive)))
  {
    assert s.listeners == [];
    assert Stream(cmds, s.written)[s.arrived..] == "";
  }

  lemma {:induction false} PunctualDeliver(cmds: seq<Cmd>, s: State, l: Listener, n: nat)
    requires Nonces(cmds) && s.listeners == [l] && l.cmd < |cmds| && Enabled(cmds, s, Deliver(n)) && Punctual(cmds, s)
    requires Listening(cmds[l.cmd], l, Stream(cmds, s.written)[s.arrived..])
    requires Wellformed(cmds, Apply(cmds, s, Deliver(n)))
    ensures Punctual(cmds, Apply(cmds, s, Deliver(n)))
  {
    var stream := Stream(cmds, s.written);
    var chunk, missing := stream[s.arrived..s.arrived + n], stream[s.arrived + n..];
    assert s.listeners[0].late == "";
    Delivered(stream, s.arrived, n);
    HeardChunk(cmds[l.cmd], l, chunk, missing);
    DeliverOne(cmds, s, l, n, chunk, Scan(cmds[l.cmd].marker, l.buf + chunk));
    PunctualHeard(cmds, s, Apply(cmds, s, Deliver(n)), l);
  }

  lemma {:induction false} PunctualHeard(cmds: seq<Cmd>, s: State, t: State, l: Listener)
    requires Wellformed(cmds, s) && Wellformed(cmds, t) && Punctual(cmds, s) && s.listeners == [l] && l.cmd < |cmds| && l.late == ""
    requires t.written == s.written && (t.listeners == [] ==> t.arrived == |Stream(cmds, s.written)|)
    requires t.listeners == [] || (|t.listeners| == 1 && t.listeners[0].late == "" && t.outcomes == s.outcomes)
    requires t.listeners == [] ==> exists r :: t.outcomes == s.outcomes[l.cmd := Done(r, "")]
    ensures Punctual(cmds, t)
  {
  }

  /** As long as no command times out, every command that settles gets exactly its own output and code. */
  lemma {:induction false} ExactWithoutTimeouts(cmds: seq<Cmd>, run: seq<Action>)
    requires Nonces(cmds) && Legal(cmds, run)
    requires forall k :: 0 <= k < |run| ==> run[k] != Timeout
    ensures var s := Exec(cmds, run);
            && Wellformed(cmds, s) && Punctual(cmds, s)
            && forall i :: 0 <= i < |cmds| && s.outcomes[i].Done? ==>
                 s.outcomes[i].result == ShellResult(StripNewline(cmds[i].output), cmds[i].code)
    decreases |run|
  {
    InvRun(cmds, run);
    if |run| > 0 {
      ExactWithoutTimeouts(cmds, run[..|run| - 1]);
      InvRun(cmds, run[..|run| - 1]);
      PunctualStep(cmds, Exec(cmds, run[..|run| - 1]), run[|run| - 1]);
    }
    forall i | 0 <= i < |cmds| && Exec(cmds, run).outcomes[i].Done?
      ensures Exec(cmds, run).outcomes[i].late + cmds[i].output == cmds[i].output
    {
    }
  }

  /**
   * Nothing blocks the queue: in every reachable state the next submitted command can start exactly when no
   * listener is attached, and a listener whose command's reply has arrived completely is not attached.
   */
  lemma {:induction false} NeverBlocked(cmds: seq<Cmd>, run: seq<Action>, alive: bool)
    requires Nonces(cmds) && Legal(cmds, run)
    ensures var s := Exec(cmds, run);
            && Wellformed(cmds, s)
            && (s.started < s.submitted ==> (Enabled(cmds, s, Start(alive)) <==> s.listeners == []))
            && (s.arrived == |Stream(cmds, s.written)| ==> s.listeners == [])
  {
    InvRun(cmds, run);
    NotBlocked(cmds, Exec(cmds, run), alive);
  }

  lemma {:induction false} NotBlocked(cmds: seq<Cmd>, s: State, alive: bool)
    requires Ordered(cmds, s) && Attached(cmds, s)
    ensures s.started < s.submitted ==> (Enabled(cmds, s, Start(alive)) <==> s.listeners == [])
    ensures s.arrived == |Stream(cmds, s.written)| ==> s.listeners == []
  {
    if s.arrived == |Stream(cmds, s.written)| {
      assert Stream(cmds, s.written)[s.arrived..] == "";
    }
  }

  ghost predicate Untainted(late: string, output: string) {
    late == "" || (late == [NL] && (output == "" || output[0] != NL))
  }

  /** When late output spoils a command's stdout: unless there is none, or just a newline that gets stripped. */
  lemma StdoutUntainted(late: string, output: string)
    ensures StripNewline(late + output) == StripNewline(output)
       <==> Untainted(late, output)
  {
    if late == "" {
      assert late + output == output;
    } else if late == [NL] {
      assert (late + output)[1..] == output;
    } else {
      assert |late + output| == |late| + |output|;
    }
  }

  /** So a caller gets its own output exactly if the shell owed nothing, or one harmless newline, when it wrote. */
  lemma {:induction false} OwnOutputExactly(cmds: seq<Cmd>, run: seq<Action>, i: nat)
    requires Nonces(cmds) && Legal(cmds, run) && i < |cmds| && Exec(cmds, run).outcomes[i].Done?
    ensures exists k: nat, late :: WrittenAt(cmds, run, k, i, late)
              && (Exec(cmds, run).outcomes[i].result.stdout == StripNewline(cmds[i].output) <==> Untainted(late, cmds[i].output))
  {
    QueueSafety(cmds, run);
    var late := Exec(cmds, run).outcomes[i].late;
    var k: nat :| WrittenAt(cmds, run, k, i, late);
    StdoutUntainted(late, cmds[i].output);
  }
}
