/**
 * How one command's output is cut out of the shared shell's byte stream: everything up to the first
 * complete line "<marker>:<digits>", less one leading newline.
 */
module ShellFraming {
  import opened Basics
  import opened Decimals

  const NL: char := '\n'

  const EXIT_PREFIX: string := "AERGIC_SSH_SESSION_"
  const EXIT_SUFFIX: string := "_EXIT"

  /** The marker of the command with this request id. */
  function ExitMarker(id: string): string {
    EXIT_PREFIX + id + EXIT_SUFFIX
  }

  datatype ShellResult = ShellResult(stdout: string, exitCode: nat)

  /** The exit code a line announces, if it is this command's marker line. */
  function MarkerCode(marker: string, line: string): Option<nat> {
    if marker + ":" <= line && AllDigits(line[|marker| + 1..]) then Some(ParseInt(line[|marker| + 1..])) else None
  }

  /** A line `marker:digits` with these digits, and no other line, announces their number. */
  ghost predicate Announces(marker: string, line: string, digits: string) {
    AllDigits(digits) && line == marker + ":" + digits
  }

  ghost predicate IsMarkerLine(marker: string, line: string) {
    exists digits :: Announces(marker, line, digits)
  }

  lemma MarkerCodeExactly(marker: string, line: string)
    ensures forall digits :: Announces(marker, line, digits) ==> MarkerCode(marker, line) == Some(ParseInt(digits))
    ensures MarkerCode(marker, line).Some? <==> IsMarkerLine(marker, line)
  {
    forall digits | Announces(marker, line, digits)
      ensures MarkerCode(marker, line) == Some(ParseInt(digits))
    {
      assert line[|marker| + 1..] == digits;
    }
    if MarkerCode(marker, line).Some? {
      assert Announces(marker, line, line[|marker| + 1..]);
    }
  }

  function MarkerLine(marker: string, code: nat): string {
    marker + ":" + Decimal(code)
  }

  lemma MarkerLineCode(marker: string, code: nat)
    ensures MarkerCode(marker, MarkerLine(marker, code)) == Some(code)
  {
    assert MarkerLine(marker, code)[|marker| + 1..] == Decimal(code);
    ParseDecimal(code);
  }

  function StripNewline(s: string): string {
    if |s| > 0 && s[0] == NL then s[1..] else s
  }

  /** lastIndexOf("\n") + 1: how much of the buffer consists of complete lines. */
  function CompleteLength(buf: string): (n: nat)
    ensures n <= |buf|
    ensures n > 0 ==> buf[n - 1] == NL
    ensures NL !in buf[n..]
  {
    if |buf| == 0 then 0
    else if buf[|buf| - 1] == NL then |buf|
    else
      assert buf[..|buf| - 1][CompleteLength(buf[..|buf| - 1])..] + [buf[|buf| - 1]] == buf[CompleteLength(buf[..|buf| - 1])..];
      CompleteLength(buf[..|buf| - 1])
  }

  /** The first line that is a marker line. */
  function FirstMarker(marker: string, lines: seq<string>): (i: nat)
    ensures i <= |lines|
    ensures forall j :: 0 <= j < i ==> MarkerCode(marker, lines[j]) == None
    ensures i < |lines| ==> MarkerCode(marker, lines[i]).Some?
  {
    if |lines| == 0 || MarkerCode(marker, lines[0]).Some? then 0 else 1 + FirstMarker(marker, lines[1..])
  }

  function ScanLines(marker: string, lines: seq<string>): Option<ShellResult> {
    var i := FirstMarker(marker, lines);
    if i == |lines| then None
    else Some(ShellResult(StripNewline(Join(lines[..i], [NL])), MarkerCode(marker, lines[i]).value))
  }

  /** What the accumulated output of one listener amounts to. */
  function Scan(marker: string, buf: string): Option<ShellResult> {
    ScanLines(marker, Split(buf[..CompleteLength(buf)], NL))
  }

  /** No line of an output is `marker:digits`. */
  ghost predicate NoMarkerLine(marker: string, output: string) {
    forall i: nat :: i < |Split(output, NL)| ==> !IsMarkerLine(marker, Split(output, NL)[i])
  }

  lemma {:induction false} NoMarkerFound(marker: string, output: string)
    ensures NoMarkerLine(marker, output) <==> FirstMarker(marker, Split(output, NL)) == |Split(output, NL)|
  {
    var lines := Split(output, NL);
    forall i: nat | i < |lines|
      ensures MarkerCode(marker, lines[i]).Some? <==> IsMarkerLine(marker, lines[i])
    {
      MarkerCodeExactly(marker, lines[i]);
    }
    if NoMarkerLine(marker, output) {
      FirstMarkerAt(marker, lines, |lines|);
    }
  }

  /** The bytes the shell produces for a command: its output, then printf's newline and marker line. */
  function Reply(marker: string, output: string, code: nat): string {
    output + [NL] + MarkerLine(marker, code) + [NL]
  }

  lemma {:induction false} ReplyText(marker: string, output: string, code: nat)
    ensures Reply(marker, output, code) == output + "\n" + marker + ":" + Decimal(code) + "\n"
  {
  }

  // --- the reader ---

  /** doRunShellCommand's data handler. */
  class ShellReader {
    const marker: string
    var buf: string
    var result: Option<ShellResult>

    ghost predicate Valid()
      reads this
    {
      result == Scan(marker, buf)
    }

    constructor (marker: string)
      ensures this.marker == marker && buf == "" && result == None && Valid()
    {
      this.marker := marker;
      buf, result := "", None;
      new;
      NoCompleteLine(marker, "");
    }

    method OnData(chunk: string)
      requires Valid()
      modifies this
      ensures Valid()
      ensures old(result).Some? ==> buf == old(buf) && result == old(result)
      ensures old(result) == None ==> buf == old(buf) + chunk
    {
      if result.Some? { return; }
      buf := buf + chunk;
      var nl := CompleteLength(buf);
      NoCompleteLine(marker, buf);
      if nl == 0 { return; }
      var lines := Split(buf[..nl], NL);
      var i := 0;
      while i < |lines|
        invariant i <= |lines|
        invariant result == None
        invariant forall j :: 0 <= j < i ==> MarkerCode(marker, lines[j]) == None
      {
        if marker + ":" <= lines[i] {
          var codeStr := lines[i][|marker| + 1..];
          if AllDigits(codeStr) {
            FirstMarkerAt(marker, lines, i);
            result := Some(ShellResult(StripNewline(Join(lines[..i], [NL])), ParseInt(codeStr)));
            return;
          }
        }
        i := i + 1;
      }
      FirstMarkerAt(marker, lines, |lines|);
    }
  }

  lemma {:induction false} FirstMarkerAt(marker: string, lines: seq<string>, i: nat)
    requires i <= |lines|
    requires forall j :: 0 <= j < i ==> MarkerCode(marker, lines[j]) == None
    requires i < |lines| ==> MarkerCode(marker, lines[i]).Some?
    ensures FirstMarker(marker, lines) == i
  {
  }

  lemma {:induction false} NoCompleteLine(marker: string, buf: string)
    ensures CompleteLength(buf) == 0 ==> Scan(marker, buf) == None
  {
    assert !(marker + ":" <= "");
    assert Split("", NL) == [""] && buf[..0] == "";
  }

  // --- chunk independence ---

  lemma {:induction false} NewlineIsComplete(buf: string, i: nat)
    requires i < |buf| && buf[i] == NL
    ensures i < CompleteLength(buf)
  {
    if buf[|buf| - 1] != NL {
      NewlineIsComplete(buf[..|buf| - 1], i);
    }
  }

  lemma {:induction false} CompleteAppend(buf: string, more: string)
    ensures var n, m := CompleteLength(buf), CompleteLength(buf + more);
            n <= m && (buf + more)[..n] == buf[..n]
  {
    var n, m := CompleteLength(buf), CompleteLength(buf + more);
    if n > 0 {
      NewlineIsComplete(buf + more, n - 1);
    }
  }

  lemma SplitComplete(lines: string, more: string)
    requires |lines| > 0 && lines[|lines| - 1] == NL
    ensures Split(lines + more, NL) == Split(lines[..|lines| - 1], NL) + Split(more, NL)
    ensures Split(lines, NL) == Split(lines[..|lines| - 1], NL) + [""]
  {
    var body := lines[..|lines| - 1];
    SplitAppend(body, NL, more);
    SplitAppend(body, NL, "");
    assert body + [NL] + more == lines + more;
    assert body + [NL] + "" == lines;
  }

  /** Once a command's result is there, no later output changes it. */
  lemma ScanStable(marker: string, buf: string, more: string)
    requires Scan(marker, buf).Some?
    ensures Scan(marker, buf + more) == Scan(marker, buf)
  {
    var n, m := CompleteLength(buf), CompleteLength(buf + more);
    CompleteAppend(buf, more);
    NoCompleteLine(marker, buf);
    var rest := (buf + more)[n..m];
    assert (buf + more)[..m] == buf[..n] + rest;
    SplitComplete(buf[..n], rest);
    var front := Split(buf[..n][..n - 1], NL);
    var i := FirstMarker(marker, front + [""]);
    assert !(marker + ":" <= "");
    assert i < |front|;
    assert forall j :: 0 <= j <= i ==> (front + Split(rest, NL))[j] == (front + [""])[j];
    FirstMarkerAt(marker, front + Split(rest, NL), i);
    assert (front + Split(rest, NL))[..i] == (front + [""])[..i];
  }

  /** The whole command: its result depends on the bytes read and not on how they were cut into chunks. */
  method AwaitCommand(marker: string, chunks: seq<string>) returns (r: Option<ShellResult>)
    ensures r == Scan(marker, Flatten(chunks))
  {
    var reader := new ShellReader(marker);
    var i := 0;
    while i < |chunks| && reader.result == None
      invariant i <= |chunks| && reader.Valid() && reader.marker == marker && fresh(reader)
      invariant reader.buf == Flatten(chunks[..i])
    {
      FlattenSnoc(chunks[..i], chunks[i]);
      assert chunks[..i] + [chunks[i]] == chunks[..i + 1];
      reader.OnData(chunks[i]);
      i := i + 1;
    }
    r := reader.result;
    FlattenAppend(chunks[..i], chunks[i..]);
    assert chunks[..i] + chunks[i..] == chunks;
    if r.Some? {
      ScanStable(marker, reader.buf, Flatten(chunks[i..]));
    } else {
      assert chunks[..i] == chunks;
    }
  }

  // --- exactness ---

  lemma MarkerLineFree(marker: string, code: nat)
    requires NL !in marker
    ensures NL !in MarkerLine(marker, code)
  {
  }

  lemma {:induction false} ScanReply(marker: string, output: string, code: nat)
    requires NL !in marker
    ensures Scan(marker, Reply(marker, output, code)) == ScanLines(marker, Split(output, NL) + [MarkerLine(marker, code)] + [""])
  {
    var s := Reply(marker, output, code);
    var line := MarkerLine(marker, code);
    assert CompleteLength(s) == |s|;
    assert s[..|s|] == s;
    MarkerLineFree(marker, code);
    SplitNoSep(line, NL);
    SplitAppend(output, NL, line);
    SplitAppend(output + [NL] + line, NL, "");
    assert s == output + [NL] + line + [NL] + "";
  }

  lemma {:induction false} JoinLength(parts: seq<string>, i: nat)
    requires i < |parts|
    ensures |Join(parts[..i], [NL])| + |parts[i]| + (if i > 0 then 1 else 0) <= |Join(parts, [NL])|
    ensures i > 1 ==> |Join(parts[..i], [NL])| > 0 && Join(parts[..i], [NL])[0] == Join(parts, [NL])[0]
  {
    if i > 0 {
      assert parts[1..][..i - 1] == parts[..i][1..];
      JoinLength(parts[1..], i - 1);
      if i > 1 {
        assert Join(parts[..i], [NL]) == parts[0] + [NL] + Join(parts[..i][1..], [NL]);
      }
    } else if |parts| > 1 {
      assert Join(parts, [NL]) == parts[0] + [NL] + Join(parts[1..], [NL]);
    }
  }

  /**
   * The framing is exact just when the output has no line of its own that looks like the marker line:
   * then, and only then, the caller gets that output (less one leading newline) and the exit code.
   */
  lemma {:induction false} FramingExact(marker: string, output: string, code: nat)
    requires NL !in marker
    ensures NoMarkerLine(marker, output) <==>
              Scan(marker, output + "\n" + marker + ":" + Decimal(code) + "\n")
                == Some(ShellResult(if |output| > 0 && output[0] == '\n' then output[1..] else output, code))
  {
    ReplyText(marker, output, code);
    NoMarkerFound(marker, output);
    ScanReply(marker, output, code);
    MarkerLineCode(marker, code);
    JoinSplit(output, NL);
    var own := Split(output, NL);
    var lines := own + [MarkerLine(marker, code)] + [""];
    var i := FirstMarker(marker, own);
    FirstMarkerAt(marker, lines, i);
    assert lines[..i] == own[..i];
    if i < |own| {
      JoinLength(own, i);
      assert |own[i]| > |marker|;
      var got := Join(own[..i], [NL]);
      if i == 1 && |output| > 0 && output[0] == NL {
        assert own == Split("" + [NL] + output[1..], NL) by { assert output == "" + [NL] + output[1..]; }
        SplitAppend("", NL, output[1..]);
        assert own[0] == "";
      }
      assert |StripNewline(got)| < |StripNewline(output)|;
    } else {
      assert own[..i] == own;
    }
  }

  lemma {:induction false} FirstMarkerFront(marker: string, a: seq<string>, b: seq<string>)
    requires FirstMarker(marker, a + b) == |a + b|
    ensures FirstMarker(marker, a) == |a|
  {
    assert forall j :: 0 <= j < |a| ==> (a + b)[j] == a[j];
    FirstMarkerAt(marker, a, |a|);
  }

  lemma ReplyNewlines(marker: string, output: string, code: nat)
    requires NL !in marker
    ensures forall j :: |output| < j < |Reply(marker, output, code)| - 1 ==> Reply(marker, output, code)[j] != NL
  {
    MarkerLineFree(marker, code);
    forall j | |output| < j < |Reply(marker, output, code)| - 1
      ensures Reply(marker, output, code)[j] != NL
    {
      assert Reply(marker, output, code)[j] == MarkerLine(marker, code)[j - |output| - 1];
    }
  }

  /** Whole lines of an output that has no marker line have none either. */
  lemma FrontHasNoMarker(marker: string, output: string, n: nat)
    requires NoMarkerLine(marker, output) && n <= |output| && (n < |output| ==> output[n] == NL)
    ensures ScanLines(marker, Split(output[..n], NL) + [""]) == None
  {
    NoMarkerFound(marker, output);
    var front := Split(output[..n], NL);
    if n < |output| {
      assert output == output[..n] + [NL] + output[n + 1..];
      SplitAppend(output[..n], NL, output[n + 1..]);
      FirstMarkerFront(marker, front, Split(output[n + 1..], NL));
    } else {
      assert output[..n] == output;
    }
    assert !(marker + ":" <= "");
    FirstMarkerAt(marker, front + [""], |front| + 1);
  }

  /** Nothing is reported before the marker line is complete. */
  lemma NothingEarly(marker: string, output: string, code: nat, received: string)
    requires NL !in marker && NoMarkerLine(marker, output)
    requires received < Reply(marker, output, code)
    ensures Scan(marker, received) == None
  {
    var n := CompleteLength(received);
    if n == 0 {
      NoCompleteLine(marker, received);
    } else {
      var lines := received[..n];
      assert Reply(marker, output, code)[n - 1] == NL;
      ReplyNewlines(marker, output, code);
      assert lines[..n - 1] == output[..n - 1];
      SplitComplete(lines, "");
      FrontHasNoMarker(marker, output, n - 1);
    }
  }
}
