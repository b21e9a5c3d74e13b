/**
 * The words a POSIX shell makes of a command line: quoting removed, blanks between words, and no result
 * where it sees an operator, an expansion or a comment, or a character that can begin a pattern.
 */
module ShellWords {
  import opened Basics

  predicate Blank(c: char) { c == ' ' || c == '\t' }

  predicate Letter(c: char) { 'a' <= c <= 'z' || 'A' <= c <= 'Z' || c == '_' }

  /** Characters that begin an operator, an expansion, a pattern or a comment, quote something, or end a word. */
  predicate Special(c: char) {
    || Blank(c) || c == '\n' || c == '|' || c == '&' || c == ';' || c == '<' || c == '>' || c == '(' || c == ')'
    || c == '$' || c == '`' || c == '\\' || c == '"' || c == '\'' || c == '*' || c == '?' || c == '[' || c == '\0'
  }

  /** Special at the start of a word only: a comment and a home directory. */
  predicate Leading(c: char) { c == '#' || c == '~' }

  /** Characters that stand for themselves wherever they are. */
  predicate Plain(c: char) { !Special(c) && !Leading(c) }

  /** Text that stands for itself from the start of a word on. */
  predicate Literal(s: string) {
    forall i :: 0 <= i < |s| ==> Plain(s[i]) || (i > 0 && Leading(s[i]))
  }

  predicate PlainWord(s: string) {
    |s| > 0 && Literal(s)
  }

  datatype Mode = Unquoted | Single | Double

  function Text(word: Option<string>): string {
    if word == None then "" else word.value
  }

  function Prefix(words: seq<string>, r: Option<seq<string>>): Option<seq<string>> {
    if r == None then None else Some(words + r.value)
  }

  /** Sections 2.2.1 to 2.2.3 of the POSIX Shell Command Language, one character at a time. */
  function Lex(mode: Mode, s: string, word: Option<string>): Option<seq<string>>
    decreases |s|
  {
    match mode
    case Single =>
      if |s| == 0 then None
      else if s[0] == '\'' then Lex(Unquoted, s[1..], word)
      else Lex(Single, s[1..], Some(Text(word) + [s[0]]))
    case Double =>
      if |s| == 0 || s[0] == '$' || s[0] == '`' then None
      else if s[0] == '"' then Lex(Unquoted, s[1..], word)
      else if s[0] == '\\' && |s| > 1 && s[1] == '\n' then Lex(Double, s[2..], word)
      else if s[0] == '\\' && |s| > 1 && s[1] in "$`\"\\" then Lex(Double, s[2..], Some(Text(word) + [s[1]]))
      else Lex(Double, s[1..], Some(Text(word) + [s[0]]))
    case Unquoted =>
      if |s| == 0 then Some(if word == None then [] else [word.value])
      else if Blank(s[0]) then
        if word == None then Lex(Unquoted, s[1..], None) else Prefix([word.value], Lex(Unquoted, s[1..], None))
      else if s[0] == '\'' then Lex(Single, s[1..], Some(Text(word)))
      else if s[0] == '"' then Lex(Double, s[1..], Some(Text(word)))
      else if s[0] == '\\' then
        if |s| == 1 then None
        else if s[1] == '\n' then Lex(Unquoted, s[2..], word)
        else Lex(Unquoted, s[2..], Some(Text(word) + [s[1]]))
      else if Plain(s[0]) || (Leading(s[0]) && word.Some?) then Lex(Unquoted, s[1..], Some(Text(word) + [s[0]]))
      else None
  }

  function Tokenize(s: string): Option<seq<string>> {
    Lex(Unquoted, s, None)
  }

  /** A piece of command line that stands for these words, at the end of a line or before more of it. */
  ghost predicate Denotes(piece: string, words: seq<string>) {
    && Lex(Unquoted, piece, None) == Some(words)
    && forall rest: string :: Lex(Unquoted, piece + " " + rest, None) == Prefix(words, Lex(Unquoted, rest, None))
  }

  lemma RestOfBoth(w: string, rest: string)
    requires |w| > 0
    ensures (w + rest)[0] == w[0] && (w + rest)[1..] == w[1..] + rest
  {
  }

  lemma {:induction false} LexPlain(w: string, rest: string, word: Option<string>)
    requires |w| > 0 && forall i :: 0 <= i < |w| ==> Plain(w[i]) || (Leading(w[i]) && (i > 0 || word.Some?))
    ensures Lex(Unquoted, w + rest, word) == Lex(Unquoted, rest, Some(Text(word) + w))
    decreases |w|
  {
    RestOfBoth(w, rest);
    if |w| == 1 {
      assert w[1..] + rest == rest && [w[0]] == w;
    } else {
      LexPlain(w[1..], rest, Some(Text(word) + [w[0]]));
      Assoc(Text(word), [w[0]], w[1..]);
      assert [w[0]] + w[1..] == w;
    }
  }

  /** What ends a word at the end of a line or before a blank. */
  lemma {:induction false} DenotesOne(piece: string, w: string)
    requires forall rest: string :: Lex(Unquoted, piece + rest, None) == Lex(Unquoted, rest, Some(w))
    ensures Denotes(piece, [w])
  {
    assert piece + "" == piece;
    forall rest: string
      ensures Lex(Unquoted, piece + " " + rest, None) == Prefix([w], Lex(Unquoted, rest, None))
    {
      Assoc(piece, " ", rest);
      assert (" " + rest)[1..] == rest;
    }
  }

  lemma PlainDenotes(w: string)
    requires PlainWord(w)
    ensures Denotes(w, [w])
  {
    forall rest: string
      ensures Lex(Unquoted, w + rest, None) == Lex(Unquoted, rest, Some(w))
    {
      LexPlain(w, rest, None);
      assert "" + w == w;
    }
    DenotesOne(w, w);
  }

  lemma DenotesTwo(a: string, x: seq<string>, b: string, y: seq<string>)
    requires Denotes(a, x) && Denotes(b, y)
    ensures Denotes(a + " " + b, x + y)
  {
    forall rest: string
      ensures Lex(Unquoted, a + " " + b + " " + rest, None) == Prefix(x + y, Lex(Unquoted, rest, None))
    {
      var tail := b + " " + rest;
      assert a + " " + b + " " + rest == a + " " + tail;
      assert Lex(Unquoted, a + " " + tail, None) == Prefix(x, Lex(Unquoted, tail, None));
      if Lex(Unquoted, rest, None).Some? {
        Assoc(x, y, Lex(Unquoted, rest, None).value);
      }
    }
  }

  /** Pieces joined by single blanks stand for all their words in order. */
  lemma {:induction false} DenotesJoin(pieces: seq<string>, words: seq<seq<string>>)
    requires |pieces| == |words| > 0
    requires forall i :: 0 <= i < |pieces| ==> Denotes(pieces[i], words[i])
    ensures Denotes(Join(pieces, " "), Flatten(words))
  {
    if |pieces| == 1 {
      assert words[1..] == [];
      assert Flatten(words) == words[0] + [] == words[0];
    } else {
      DenotesJoin(pieces[1..], words[1..]);
      DenotesTwo(pieces[0], words[0], Join(pieces[1..], " "), Flatten(words[1..]));
    }
  }
}

/** shellQuote, and the command lines built with it. */
module ShellQuoting {
  import opened Basics
  import opened ShellWords

  function Escape(s: string): string {
    if |s| == 0 then "" else (if s[0] == '\'' then "'\\''" else [s[0]]) + Escape(s[1..])
  }

  function Quote(s: string): string {
    "'" + Escape(s) + "'"
  }

  lemma {:induction false} EscapeAppend(a: string, b: string)
    ensures Escape(a + b) == Escape(a) + Escape(b)
  {
    if |a| == 0 {
      assert a + b == b;
    } else {
      assert (a + b)[1..] == a[1..] + b;
      EscapeAppend(a[1..], b);
    }
  }

  lemma {:induction false} EscapeQuoteFree(s: string)
    requires '\'' !in s
    ensures Escape(s) == s
  {
    if |s| > 0 {
      EscapeQuoteFree(s[1..]);
      assert [s[0]] + s[1..] == s;
    }
  }

  lemma Regroup(x: string, y: string, q: string, middle: string, bare: string)
    requires middle == q + bare + q
    ensures q + (x + middle + y) + q == (q + x + q) + bare + (q + y + q)
  {
  }

  lemma QuoteEscaped()
    ensures Escape("'") == "'" + "\\'" + "'"
  {
  }

  /** Text without a single quote goes between two; a single quote is escaped between two quoted texts. */
  lemma QuoteLayout(a: string, b: string)
    ensures '\'' !in a ==> Quote(a) == "'" + a + "'"
    ensures Quote(a + "'" + b) == Quote(a) + "\\'" + Quote(b)
  {
    if '\'' !in a {
      EscapeQuoteFree(a);
    }
    EscapeAppend(a + "'", b);
    EscapeAppend(a, "'");
    QuoteEscaped();
    Regroup(Escape(a), Escape(b), "'", Escape("'"), "\\'");
  }

  /** Leaving the single quotes, an escaped quote, and entering them again. */
  lemma {:induction false} LexQuoteChar(tail: string, word: string)
    ensures Lex(Single, "'\\''" + tail, Some(word)) == Lex(Single, tail, Some(word + "'"))
  {
    var text := "'\\''" + tail;
    assert text[1..][2..] == "'" + tail;
    assert ("'" + tail)[1..] == tail;
    assert Lex(Unquoted, "'" + tail, Some(word + "'")) == Lex(Single, tail, Some(word + "'"));
  }

  /** What follows the opening quote of a quoted text. */
  function Inside(s: string): string {
    Escape(s) + "'"
  }

  lemma InsideCons(s: string)
    requires |s| > 0
    ensures Inside(s) == (if s[0] == '\'' then "'\\''" else [s[0]]) + Inside(s[1..])
  {
  }

  lemma {:induction false} LexEscaped(s: string, rest: string, word: string)
    ensures Lex(Single, Inside(s) + rest, Some(word)) == Lex(Unquoted, rest, Some(word + s))
    decreases |s|
  {
    if |s| == 0 {
      assert (Inside(s) + rest)[1..] == rest;
      assert word + s == word;
    } else {
      var tail := Inside(s[1..]) + rest;
      InsideCons(s);
      LexEscaped(s[1..], rest, word + [s[0]]);
      Assoc(word, [s[0]], s[1..]);
      assert [s[0]] + s[1..] == s;
      if s[0] == '\'' {
        Assoc("'\\''", Inside(s[1..]), rest);
        LexQuoteChar(tail, word);
      } else {
        Assoc([s[0]], Inside(s[1..]), rest);
        assert ([s[0]] + tail)[1..] == tail;
      }
    }
  }

  lemma {:induction false} LexQuoted(s: string, rest: string, word: Option<string>)
    ensures Lex(Unquoted, Quote(s) + rest, word) == Lex(Unquoted, rest, Some(Text(word) + s))
  {
    LexEscaped(s, rest, Text(word));
    assert Quote(s) + rest == "'" + (Inside(s) + rest);
    assert ("'" + (Inside(s) + rest))[1..] == Inside(s) + rest;
  }

  /** Quoting makes any text at all into one word, verbatim. */
  lemma QuoteDenotes(s: string)
    ensures Denotes(Quote(s), [s])
  {
    forall rest: string
      ensures Lex(Unquoted, Quote(s) + rest, None) == Lex(Unquoted, rest, Some(s))
    {
      LexQuoted(s, rest, None);
      assert "" + s == s;
    }
    DenotesOne(Quote(s), s);
  }

  function QuoteAll(words: seq<string>): seq<string> {
    if |words| == 0 then [] else [Quote(words[0])] + QuoteAll(words[1..])
  }

  lemma {:induction false} QuoteAllDenotes(words: seq<string>)
    requires |words| > 0
    ensures Denotes(Join(QuoteAll(words), " "), words)
  {
    QuoteDenotes(words[0]);
    if |words| == 1 {
      assert QuoteAll(words) == [Quote(words[0])] && [words[0]] == words;
    } else {
      QuoteAllDenotes(words[1..]);
      DenotesTwo(Quote(words[0]), [words[0]], Join(QuoteAll(words[1..]), " "), words[1..]);
      assert QuoteAll(words)[1..] == QuoteAll(words[1..]);
      assert [words[0]] + words[1..] == words;
    }
  }

  /** The shell reads back exactly the list that was quoted. */
  lemma {:induction false} QuoteRoundTrip(words: seq<string>)
    ensures Tokenize(Join(QuoteAll(words), " ")) == Some(words)
  {
    if |words| > 0 {
      QuoteAllDenotes(words);
    }
  }

  // --- buildCommand ---

  /** /^[A-Za-z_][A-Za-z0-9_]*$/ */
  predicate IsEnvName(k: string) {
    |k| > 0 && Letter(k[0]) && forall i :: 0 <= i < |k| ==> Letter(k[i]) || '0' <= k[i] <= '9'
  }

  const CD_SCRIPT: string := "cd \"$0\" && exec \"$@\""

  lemma AssignmentDenotes(k: string, v: string)
    requires IsEnvName(k)
    ensures Denotes(k + "=" + Quote(v), [k + "=" + v])
  {
    forall rest: string
      ensures Lex(Unquoted, k + "=" + Quote(v) + rest, None) == Lex(Unquoted, rest, Some(k + "=" + v))
    {
      var name := k + "=";
      Assoc(name, Quote(v), rest);
      LexPlain(name, Quote(v) + rest, None);
      assert "" + name == name;
      LexQuoted(v, rest, Some(name));
    }
    DenotesOne(k + "=" + Quote(v), k + "=" + v);
  }

  /** The argument vector the caller means: env assignments, a change of directory, then the command. */
  function Assignments(env: seq<(string, string)>): seq<string> {
    if |env| == 0 then [] else Assignments(env[..|env| - 1]) + [env[|env| - 1].0 + "=" + env[|env| - 1].1]
  }

  function EnvWords(env: Option<seq<(string, string)>>): seq<string> {
    if env.Some? then ["env"] + Assignments(env.value) else []
  }

  lemma EnvWordsAt(env: Option<seq<(string, string)>>)
    ensures |EnvWords(env)| == if env.Some? then 1 + |env.value| else 0
    ensures env.Some? ==>
              EnvWords(env)[0] == "env" && forall i :: 0 <= i < |env.value| ==> EnvWords(env)[1 + i] == env.value[i].0 + "=" + env.value[i].1
  {
    if env.Some? {
      AssignmentsAt(env.value);
    }
  }

  function Intended(command: seq<string>, args: seq<string>, env: Option<seq<(string, string)>>, cwd: Option<string>): seq<string> {
    EnvWords(env)
    + (if cwd.Some? && cwd.value != "" then ["sh", "-c", CD_SCRIPT, cwd.value] else [])
    + command
    + args
  }

  lemma {:induction false} AssignmentsAt(env: seq<(string, string)>)
    ensures |Assignments(env)| == |env|
    ensures forall i :: 0 <= i < |env| ==> Assignments(env)[i] == env[i].0 + "=" + env[i].1
  {
    if |env| > 0 {
      AssignmentsAt(env[..|env| - 1]);
    }
  }

  lemma Parts(a: seq<string>, b: seq<string>, c: seq<string>, d: seq<string>)
    ensures var t := a + b + c + d;
            && |t| == |a| + |b| + |c| + |d| && (forall i :: 0 <= i < |a| ==> t[i] == a[i])
            && (forall i :: 0 <= i < |b| ==> t[|a| + i] == b[i])
            && t[|a| + |b|..|a| + |b| + |c|] == c && t[|a| + |b| + |c|..] == d
  {
  }

  lemma Tail(a: seq<string>, b: seq<string>, c: seq<string>, d: seq<string>)
    ensures (a + b + c + d)[|a| + |b|..] == c + d
  {
  }

  // --- the script that changes the directory ---

  datatype Token = Word(text: string) | AndIf

  function AsWords(words: seq<string>): seq<Token> {
    seq(|words|, i requires 0 <= i < |words| => Word(words[i]))
  }

  /**
   * The tokens of a script of blank-separated parts, run as `sh -c script zero args`: literals, the list
   * operator, and the two quoted parameters of section 2.5.2; no result where there is anything else.
   */
  function ScriptTokens(parts: seq<string>, zero: string, args: seq<string>): Option<seq<Token>> {
    if |parts| == 0 then Some([])
    else
      var rest := ScriptTokens(parts[1..], zero, args);
      if rest == None then None
      else if parts[0] == "&&" then Some([AndIf] + rest.value)
      else if parts[0] == "\"$0\"" then Some([Word(zero)] + rest.value)
      else if parts[0] == "\"$@\"" then Some(AsWords(args) + rest.value)
      else if PlainWord(parts[0]) then Some([Word(parts[0])] + rest.value)
      else None
  }

  lemma {:induction false} JoinFive(a: string, b: string, c: string, d: string, e: string)
    ensures Join([a, b, c, d, e], " ") == a + " " + (b + " " + (c + " " + (d + " " + e)))
  {
    assert [d, e][1..] == [e] && Join([d, e], " ") == d + " " + e;
    assert [c, d, e][1..] == [d, e] && Join([c, d, e], " ") == c + " " + Join([d, e], " ");
    assert [b, c, d, e][1..] == [c, d, e] && Join([b, c, d, e], " ") == b + " " + Join([c, d, e], " ");
    assert [a, b, c, d, e][1..] == [b, c, d, e];
  }

  lemma CdScriptText()
    ensures "cd" + " " + ("\"$0\"" + " " + ("&&" + " " + ("exec" + " " + "\"$@\""))) == CD_SCRIPT
  {
  }

  lemma CdScriptParts()
    ensures Split(CD_SCRIPT, ' ') == ["cd", "\"$0\"", "&&", "exec", "\"$@\""]
  {
    var a, b, c, d, e := "cd", "\"$0\"", "&&", "exec", "\"$@\"";
    assert ' ' !in a && ' ' !in b && ' ' !in c && ' ' !in d && ' ' !in e;
    CdScriptText();
    FiveParts(a, b, c, d, e);
  }

  lemma {:induction false} FiveParts(a: string, b: string, c: string, d: string, e: string)
    requires ' ' !in a && ' ' !in b && ' ' !in c && ' ' !in d && ' ' !in e
    ensures Split(a + " " + (b + " " + (c + " " + (d + " " + e))), ' ') == [a, b, c, d, e]
  {
    JoinFive(a, b, c, d, e);
    SplitJoin([a, b, c, d, e], ' ');
  }

  lemma {:induction false} TokensCons(first: string, rest: seq<string>, zero: string, args: seq<string>)
    requires ScriptTokens(rest, zero, args).Some?
    ensures var r := ScriptTokens(rest, zero, args).value;
            ScriptTokens([first] + rest, zero, args) ==
              if first == "&&" then Some([AndIf] + r)
              else if first == "\"$0\"" then Some([Word(zero)] + r)
              else if first == "\"$@\"" then Some(AsWords(args) + r)
              else if PlainWord(first) then Some([Word(first)] + r)
              else None
  {
    assert ([first] + rest)[1..] == rest;
  }

  lemma Ordinary()
    ensures "cd" != "&&" && "cd" != "\"$0\"" && "cd" != "\"$@\"" && PlainWord("cd")
    ensures "exec" != "&&" && "exec" != "\"$0\"" && "exec" != "\"$@\"" && PlainWord("exec")
    ensures "\"$0\"" != "&&" && "\"$@\"" != "&&" && "\"$@\"" != "\"$0\""
  {
    assert "\"$@\""[1] == '$' && "\"$@\""[1] != '&' && "\"$@\""[2] == '@' && "\"$0\""[2] == '0';
  }

  lemma {:induction false} FiveTokens(cd: string, zero: string, then_: string, exec: string, all: string, cwd: string, words: seq<string>)
    requires cd != then_ && cd != zero && cd != all && PlainWord(cd) && exec != then_ && exec != zero && exec != all && PlainWord(exec)
    requires zero == "\"$0\"" && then_ == "&&" && all == "\"$@\"" && zero != then_ && all != then_ && all != zero
    ensures ScriptTokens([cd, zero, then_, exec, all], cwd, words) == Some([Word(cd), Word(cwd), AndIf, Word(exec)] + AsWords(words))
  {
    TokensCons(all, [], cwd, words);
    assert [all] + [] == [all] && AsWords(words) + [] == AsWords(words);
    TokensCons(exec, [all], cwd, words);
    assert [exec] + [all] == [exec, all];
    TokensCons(then_, [exec, all], cwd, words);
    assert [then_] + [exec, all] == [then_, exec, all];
    TokensCons(zero, [then_, exec, all], cwd, words);
    assert [zero] + [then_, exec, all] == [zero, then_, exec, all];
    TokensCons(cd, [zero, then_, exec, all], cwd, words);
    assert [cd] + [zero, then_, exec, all] == [cd, zero, then_, exec, all];
    assert [Word(cd)] + ([Word(cwd)] + ([AndIf] + ([Word(exec)] + AsWords(words))))
        == [Word(cd), Word(cwd), AndIf, Word(exec)] + AsWords(words);
  }

  /** It changes to the directory in `$0`, and there runs the command with its arguments, as they are. */
  lemma {:induction false} CdScriptRuns(cwd: string, words: seq<string>)
    ensures ScriptTokens(Split(CD_SCRIPT, ' '), cwd, words) == Some([Word("cd"), Word(cwd), AndIf, Word("exec")] + AsWords(words))
  {
    CdScriptParts();
    Ordinary();
    FiveTokens("cd", "\"$0\"", "&&", "exec", "\"$@\"", cwd, words);
  }

  /**
   * What a caller means by a vector: first the environment, then a shell that changes the directory and
   * runs the rest, then the command and its arguments.
   */
  ghost predicate Meant(t: seq<string>, command: seq<string>, args: seq<string>, env: Option<seq<(string, string)>>, cwd: Option<string>) {
    var e, d := if env.Some? then 1 + |env.value| else 0, if cwd.Some? && cwd.value != "" then 4 else 0;
    && |t| == e + d + |command| + |args|
    && (env.Some? ==> t[0] == "env" && forall i :: 0 <= i < |env.value| ==> t[1 + i] == env.value[i].0 + "=" + env.value[i].1)
    && (d == 4 ==>
          && t[e] == "sh" && t[e + 1] == "-c" && t[e + 3] == cwd.value
          && ScriptTokens(Split(t[e + 2], ' '), t[e + 3], t[e + 4..])
               == Some([Word("cd"), Word(cwd.value), AndIf, Word("exec")] + AsWords(command + args)))
    && t[e + d..e + d + |command|] == command && t[e + d + |command|..] == args
  }

  lemma {:induction false} MeantParts(head: seq<string>, dir: seq<string>, script: string, command: seq<string>, args: seq<string>,
                   env: Option<seq<(string, string)>>, cwd: Option<string>)
    requires |head| == (if env.Some? then 1 + |env.value| else 0)
    requires env.Some? ==> head[0] == "env" && forall i :: 0 <= i < |env.value| ==> head[1 + i] == env.value[i].0 + "=" + env.value[i].1
    requires dir == if cwd.Some? && cwd.value != "" then ["sh", "-c", script, cwd.value] else []
    requires cwd.Some? ==> ScriptTokens(Split(script, ' '), cwd.value, command + args)
                             == Some([Word("cd"), Word(cwd.value), AndIf, Word("exec")] + AsWords(command + args))
    ensures Meant(head + dir + command + args, command, args, env, cwd)
  {
    Parts(head, dir, command, args);
    Tail(head, dir, command, args);
  }

  lemma IntendedIsMeant(command: seq<string>, args: seq<string>, env: Option<seq<(string, string)>>, cwd: Option<string>)
    ensures Meant(Intended(command, args, env, cwd), command, args, env, cwd)
  {
    EnvWordsAt(env);
    if cwd.Some? {
      CdScriptRuns(cwd.value, command + args);
    }
    MeantParts(EnvWords(env), if cwd.Some? && cwd.value != "" then ["sh", "-c", CD_SCRIPT, cwd.value] else [], CD_SCRIPT, command, args, env, cwd);
  }

  lemma FourDenote(a: string, b: string, c: string, d: string, w: seq<string>)
    requires |w| == 4
    requires Denotes(a, [w[0]]) && Denotes(b, [w[1]]) && Denotes(c, [w[2]]) && Denotes(d, [w[3]])
    ensures Denotes(a + " " + b + " " + c + " " + d, w)
  {
    DenotesTwo(a, [w[0]], b, [w[1]]);
    DenotesTwo(a + " " + b, [w[0]] + [w[1]], c, [w[2]]);
    DenotesTwo(a + " " + b + " " + c, [w[0]] + [w[1]] + [w[2]], d, [w[3]]);
    assert [w[0]] + [w[1]] + [w[2]] + [w[3]] == w;
  }

  function ChangeDir(script: string, cwd: string): string {
    "sh" + " " + "-c" + " " + Quote(script) + " " + Quote(cwd)
  }

  lemma ChangeDirDenotes(script: string, cwd: string)
    ensures Denotes(ChangeDir(script, cwd), ["sh", "-c", script, cwd])
  {
    PlainDenotes("sh");
    PlainDenotes("-c");
    QuoteDenotes(script);
    QuoteDenotes(cwd);
    FourDenote("sh", "-c", Quote(script), Quote(cwd), ["sh", "-c", script, cwd]);
  }

  ghost predicate AllDenote(pieces: seq<string>, words: seq<seq<string>>) {
    |pieces| == |words| && forall i :: 0 <= i < |pieces| ==> Denotes(pieces[i], words[i])
  }

  lemma AllDenoteSnoc(pieces: seq<string>, words: seq<seq<string>>, piece: string, more: seq<string>)
    requires AllDenote(pieces, words) && Denotes(piece, more)
    ensures AllDenote(pieces + [piece], words + [more])
  {
  }

  lemma {:induction false} PushOne(env: seq<(string, string)>, i: nat, pushed: seq<string>, words: seq<seq<string>>)
    requires i < |env| && IsEnvName(env[i].0) && AllDenote(pushed, words) && Flatten(words) == ["env"] + Assignments(env[..i])
    ensures AllDenote(pushed + [env[i].0 + "=" + Quote(env[i].1)], words + [[env[i].0 + "=" + env[i].1]])
    ensures Flatten(words + [[env[i].0 + "=" + env[i].1]]) == ["env"] + Assignments(env[..i + 1])
  {
    var (k, v) := env[i];
    AssignmentDenotes(k, v);
    AllDenoteSnoc(pushed, words, k + "=" + Quote(v), [k + "=" + v]);
    FlattenSnoc(words, [k + "=" + v]);
    assert env[..i + 1][..i] == env[..i];
  }

  /** env K='v' ...: no result where an environment name is refused. */
  method PushEnv(env: seq<(string, string)>) returns (parts: Option<seq<string>>, ghost words: seq<seq<string>>)
    ensures parts == None <==> exists i :: 0 <= i < |env| && !IsEnvName(env[i].0)
    ensures parts.Some? ==> AllDenote(parts.value, words) && Flatten(words) == ["env"] + Assignments(env)
  {
    var pushed := ["env"];
    PlainDenotes("env");
    words := [["env"]];
    assert words[1..] == [];
    var i := 0;
    while i < |env|
      invariant i <= |env|
      invariant forall j :: 0 <= j < i ==> IsEnvName(env[j].0)
      invariant AllDenote(pushed, words)
      invariant Flatten(words) == ["env"] + Assignments(env[..i])
    {
      var (k, v) := env[i];
      if !IsEnvName(k) {
        return None, words;
      }
      PushOne(env, i, pushed, words);
      pushed := pushed + [k + "=" + Quote(v)];
      words := words + [[k + "=" + v]];
      i := i + 1;
    }
    assert env[..i] == env;
    parts := Some(pushed);
  }

  method PushArgs(parts: seq<string>, args: seq<string>, ghost words: seq<seq<string>>)
    returns (all: seq<string>, ghost allWords: seq<seq<string>>)
    ensures |all| == |parts| + |args|
    ensures AllDenote(parts, words) ==> AllDenote(all, allWords)
    ensures Flatten(allWords) == Flatten(words) + args
  {
    all, allWords := parts, words;
    var i := 0;
    while i < |args|
      invariant i <= |args| && |all| == |parts| + i
      invariant AllDenote(parts, words) ==> AllDenote(all, allWords)
      invariant Flatten(allWords) == Flatten(words) + args[..i]
    {
      QuoteDenotes(args[i]);
      if AllDenote(all, allWords) {
        AllDenoteSnoc(all, allWords, Quote(args[i]), [args[i]]);
      }
      FlattenSnoc(allWords, [args[i]]);
      all := all + [Quote(args[i])];
      allWords := allWords + [[args[i]]];
      assert args[..i + 1] == args[..i] + [args[i]];
      i := i + 1;
    }
    assert args[..i] == args;
  }

  /**
   * buildCommand. `command` is spliced in as it stands, so what the line denotes depends on what the
   * command text denotes: itself for a plain word, whatever was quoted for quoted text.
   */
  method BuildCommand(command: string, args: seq<string>, env: Option<seq<(string, string)>>, cwd: Option<string>,
                      ghost commandWords: seq<string>)
    returns (line: Option<string>)
    ensures line == None <==> env.Some? && exists i :: 0 <= i < |env.value| && !IsEnvName(env.value[i].0)
    ensures line.Some? && Denotes(command, commandWords) ==>
              Tokenize(line.value).Some? && Meant(Tokenize(line.value).value, commandWords, args, env, cwd)
  {
    var parts: seq<string> := [];
    ghost var words: seq<seq<string>> := [];
    if env.Some? {
      var pushed;
      pushed, words := PushEnv(env.value);
      if pushed == None { return None; }
      parts := pushed.value;
    }
    if cwd.Some? && cwd.value != "" {
      ChangeDirDenotes(CD_SCRIPT, cwd.value);
      AllDenoteSnoc(parts, words, ChangeDir(CD_SCRIPT, cwd.value), ["sh", "-c", CD_SCRIPT, cwd.value]);
      FlattenSnoc(words, ["sh", "-c", CD_SCRIPT, cwd.value]);
      parts := parts + [ChangeDir(CD_SCRIPT, cwd.value)];
      words := words + [["sh", "-c", CD_SCRIPT, cwd.value]];
    }
    assert Flatten(words) + commandWords + args == Intended(commandWords, args, env, cwd);
    FlattenSnoc(words, commandWords);
    ghost var headWords := words + [commandWords];
    if Denotes(command, commandWords) {
      AllDenoteSnoc(parts, words, command, commandWords);
    }
    parts, words := PushArgs(parts + [command], args, headWords);
    line := Some(Join(parts, " "));
    if Denotes(command, commandWords) {
      LineMeans(parts, words, commandWords, args, env, cwd);
    }
  }

  lemma {:induction false} LineMeans(parts: seq<string>, words: seq<seq<string>>, command: seq<string>, args: seq<string>,
                  env: Option<seq<(string, string)>>, cwd: Option<string>)
    requires AllDenote(parts, words) && |parts| > 0 && Flatten(words) == Intended(command, args, env, cwd)
    ensures Tokenize(Join(parts, " ")).Some? && Meant(Tokenize(Join(parts, " ")).value, command, args, env, cwd)
  {
    DenotesJoin(parts, words);
    IntendedIsMeant(command, args, env, cwd);
  }

  // --- the vendored shell ---

  function ToolsDir(home: string): string { home + "/.ssh-remote/bin" }
  function ShPath(home: string): string { ToolsDir(home) + "/sh" }

  function Wrapped(home: string, command: string): string {
    "export PATH=" + Quote(ToolsDir(home)) + ":$PATH; " + command
  }

  /** The line bbExec and bbExecWithStdin hand to the login shell. */
  function BusyboxLine(home: string, command: string): string {
    ShPath(home) + " -c " + Quote(Wrapped(home, command))
  }

  predicate QuotingChar(c: char) { c == '\'' || c == '"' || c == '\\' }

  ghost predicate BlankFree(s: string) {
    forall i :: 0 <= i < |s| ==> !Blank(s[i])
  }

  /** A piece without quoting characters never lexes to a first word with a blank in it, nor past a special one. */
  lemma {:induction false} FirstWord(s: string, rest: string, word: Option<string>)
    requires forall i :: 0 <= i < |s| ==> !QuotingChar(s[i])
    requires |s| > 0 && !Blank(s[|s| - 1])
    requires BlankFree(Text(word))
    ensures var r := Lex(Unquoted, s + " " + rest, word);
            r.Some? ==>
              && |r.value| > 0 && BlankFree(r.value[0]) && (word == None ==> !Leading(s[0]))
              && forall i :: 0 <= i < |s| ==> Blank(s[i]) || Plain(s[i]) || Leading(s[i])
    decreases |s|
  {
    var text := s + " " + rest;
    assert text[1..] == s[1..] + " " + rest;
    if Lex(Unquoted, text, word).Some? {
      if Blank(s[0]) {
        FirstWord(s[1..], rest, None);
      } else if |s| > 1 {
        FirstWord(s[1..], rest, Some(Text(word) + [s[0]]));
      } else {
        assert s[1..] + " " + rest == " " + rest;
      }
      forall i | 0 <= i < |s|
        ensures Blank(s[i]) || Plain(s[i]) || Leading(s[i])
      {
        if i > 0 {
          assert s[i] == s[1..][i - 1];
        }
      }
    }
  }

  lemma ScriptLine(sh: string, script: string)
    requires PlainWord(sh)
    ensures Tokenize(sh + " " + ("-c" + " " + Quote(script))) == Some([sh, "-c", script])
  {
    PlainDenotes(sh);
    PlainDenotes("-c");
    QuoteDenotes(script);
    DenotesTwo("-c", ["-c"], Quote(script), [script]);
    DenotesTwo(sh, [sh], "-c" + " " + Quote(script), ["-c"] + [script]);
    assert [sh] + (["-c"] + [script]) == [sh, "-c", script];
  }

  lemma BusyboxLineText(home: string, command: string)
    ensures BusyboxLine(home, command) == ShPath(home) + " " + ("-c" + " " + Quote(Wrapped(home, command)))
    ensures ShPath(home) == home + "/.ssh-remote/bin/sh"
  {
    assert " -c " == " " + "-c" + " ";
  }

  // --- a shell path that is read with quoting in it ---

  /** Two texts part when read from their ends. */
  ghost predicate Differs(got: string, s: string) {
    exists m: nat :: m < |s| && |got| >= |s| - m && got[|got| - (|s| - m)] != s[m]
  }

  lemma DiffersFrom(got: string, s: string, k: nat)
    requires k <= |s| && Differs(got, s[k..])
    ensures Differs(got, s)
  {
    var m: nat :| m < |s[k..]| && |got| >= |s[k..]| - m && got[|got| - (|s[k..]| - m)] != s[k..][m];
    assert s[k + m] == s[k..][m] && |s| - (k + m) == |s[k..]| - m;
  }

  lemma DiffersAt(before: string, part: string, s: string, k: nat)
    requires 0 < k <= |s| && |part| == k && part[0] != s[0]
    ensures Differs(before + part + s[k..], s)
  {
    var got := before + part + s[k..];
    assert got[|got| - |s|] == part[0];
  }

  /** The last of the words read is another text. */
  ghost predicate Misread(words: Option<seq<string>>, s: string) {
    words.Some? ==> |words.value| > 0 && Differs(words.value[|words.value| - 1], s)
  }

  lemma LexAligned(s: string, word: string)
    ensures Lex(Single, Inside(s), Some(word)) == Some([word + s])
  {
    LexEscaped(s, "", word);
    assert Inside(s) + "" == Inside(s);
  }

  lemma {:induction false} LexLastQuote(mode: Mode, word: Option<string>)
    requires mode != Single
    ensures Lex(mode, "'", word) == None
  {
    assert "'"[1..] == "";
  }

  /** Read from outside single quotes, quoted text never comes out as it was, whatever word it is glued to. */
  lemma {:induction false} Misaligned(mode: Mode, s: string, word: Option<string>)
    requires mode != Single
    ensures Misread(Lex(mode, Inside(s), word), s)
    decreases |s|, 2
  {
    if |s| == 0 {
      assert Inside(s) == "'";
      LexLastQuote(mode, word);
    } else if s[0] == '\'' {
      MisalignedQuote(mode, s, word);
    } else if s[0] == '\\' {
      MisalignedEscape(mode, s, word);
    } else {
      MisalignedPlain(mode, s, word);
    }
  }

  lemma {:induction false} MisalignedQuote(mode: Mode, s: string, word: Option<string>)
    requires mode != Single && |s| > 0 && s[0] == '\''
    ensures Misread(Lex(mode, Inside(s), word), s)
    decreases |s|, 0
  {
    var tail := Inside(s[1..]);
    InsideCons(s);
    FourQuoteChars(mode, tail, word);
    if mode == Unquoted {
      LexAligned(s[1..], Text(word) + "\\");
      DiffersAt(Text(word), "\\", s, 1);
    } else {
      Misaligned(Double, s[1..], Some(Text(word) + "'\\''"));
      if Lex(mode, Inside(s), word).Some? {
        DiffersFrom(Lex(mode, Inside(s), word).value[|Lex(mode, Inside(s), word).value| - 1], s, 1);
      }
    }
  }

  /** An escaped quote read from outside single quotes. */
  lemma {:induction false} FourQuoteChars(mode: Mode, tail: string, word: Option<string>)
    requires mode != Single
    ensures mode == Unquoted ==> Lex(mode, "'\\''" + tail, word) == Lex(Single, tail, Some(Text(word) + "\\"))
    ensures mode == Double ==> Lex(mode, "'\\''" + tail, word) == Lex(Double, tail, Some(Text(word) + "'\\''"))
  {
    var a, b, c := "\\''" + tail, "''" + tail, "'" + tail;
    assert ("'\\''" + tail)[1..] == a && a[1..] == b && b[1..] == c && c[1..] == tail;
    if mode == Unquoted {
      assert Lex(Unquoted, "'\\''" + tail, word) == Lex(Single, a, Some(Text(word)));
      assert Lex(Single, a, Some(Text(word))) == Lex(Single, b, Some(Text(word) + "\\"));
      assert Lex(Unquoted, c, Some(Text(word) + "\\")) == Lex(Single, tail, Some(Text(word) + "\\"));
    } else {
      var w := Text(word);
      assert Lex(Double, "'\\''" + tail, word) == Lex(Double, a, Some(w + "'"));
      assert Lex(Double, a, Some(w + "'")) == Lex(Double, b, Some(w + "'" + "\\"));
      assert Lex(Double, b, Some(w + "'" + "\\")) == Lex(Double, c, Some(w + "'" + "\\" + "'"));
      assert Lex(Double, c, Some(w + "'" + "\\" + "'")) == Lex(Double, tail, Some(w + "'" + "\\" + "'" + "'"));
      assert w + "'" + "\\" + "'" + "'" == w + "'\\''";
    }
  }

  lemma MisreadLater(words: Option<seq<string>>, s: string, k: nat)
    requires k <= |s| && Misread(words, s[k..])
    ensures Misread(words, s)
  {
    if words.Some? {
      DiffersFrom(words.value[|words.value| - 1], s, k);
    }
  }

  lemma {:induction false} MisalignedEscape(mode: Mode, s: string, word: Option<string>)
    requires mode != Single && |s| > 0 && s[0] == '\\'
    ensures Misread(Lex(mode, Inside(s), word), s)
    decreases |s|, 1
  {
    InsideCons(s);
    var tail := Inside(s[1..]);
    assert (['\\'] + tail)[1..] == tail;
    if |s| == 1 || s[1] == '\'' {
      EscapedQuote(mode, s, word);
    } else {
      InsideCons(s[1..]);
      var rest := Inside(s[2..]);
      assert s[1..][1..] == s[2..];
      assert Inside(s) == ['\\'] + ([s[1]] + rest) && Inside(s)[1] == s[1] && Inside(s)[2..] == rest;
      if s[1] == '\n' {
        Misaligned(mode, s[2..], word);
        MisreadLater(Lex(mode, Inside(s), word), s, 2);
      } else if mode == Unquoted || s[1] in "$`\"\\" {
        Misaligned(mode, s[2..], Some(Text(word) + [s[1]]));
        MisreadLater(Lex(mode, Inside(s), word), s, 2);
      } else {
        Misaligned(mode, s[1..], Some(Text(word) + "\\"));
        MisreadLater(Lex(mode, Inside(s), word), s, 1);
      }
    }
  }

  /** A backslash that takes away the quote after it, or the first character of an escaped one. */
  lemma {:induction false} EscapedQuote(mode: Mode, s: string, word: Option<string>)
    requires mode != Single && |s| > 0 && s[0] == '\\' && (|s| == 1 || s[1] == '\'')
    ensures Misread(Lex(mode, Inside(s), word), s)
    decreases |s|, 0
  {
    if mode == Double {
      InsideCons(s);
      if |s| > 1 { InsideCons(s[1..]); }
      LexBackslash(Inside(s[1..]), word);
      Misaligned(Double, s[1..], Some(Text(word) + "\\"));
      MisreadLater(Lex(mode, Inside(s), word), s, 1);
    } else if |s| == 1 {
      EscapedEnd(s, word);
    } else {
      InsideCons(s);
      InsideCons(s[1..]);
      assert s[1..][1..] == s[2..];
      assert Inside(s) == "\\'\\''" + Inside(s[2..]);
      TwoEscapes(Inside(s[2..]), word);
      LexAligned(s[2..], Text(word) + "''");
      DiffersAt(Text(word), "''", s, 2);
    }
  }

  lemma {:induction false} LexBackslash(tail: string, word: Option<string>)
    requires |tail| > 0 && tail[0] == '\''
    ensures Lex(Double, ['\\'] + tail, word) == Lex(Double, tail, Some(Text(word) + "\\"))
  {
    assert (['\\'] + tail)[1..] == tail;
  }

  lemma {:induction false} LexEscapedLast(word: Option<string>)
    ensures Lex(Unquoted, "\\'", word) == Some([Text(word) + "'"])
  {
    assert "\\'"[2..] == "";
  }

  lemma {:induction false} EscapedEnd(s: string, word: Option<string>)
    requires |s| == 1 && s[0] == '\\'
    ensures Misread(Lex(Unquoted, Inside(s), word), s)
  {
    InsideCons(s);
    assert s[1..] == "" && Inside(s) == "\\'";
    LexEscapedLast(word);
    var got := Text(word) + "'";
    assert got[|got| - (|s| - 0)] != s[0];
  }

  /** A backslash and an escaped quote, read unquoted. */
  lemma {:induction false} TwoEscapes(rest: string, word: Option<string>)
    ensures Lex(Unquoted, "\\'\\''" + rest, word) == Lex(Single, rest, Some(Text(word) + "''"))
  {
    var a, b := "\\''" + rest, "'" + rest;
    var w := Text(word) + "'";
    assert ("\\'\\''" + rest)[2..] == a && a[2..] == b && b[1..] == rest;
    assert Lex(Unquoted, a, Some(w)) == Lex(Unquoted, b, Some(w + "'"));
    assert w + "'" == Text(word) + "''";
  }

  lemma {:induction false} MisalignedPlain(mode: Mode, s: string, word: Option<string>)
    requires mode != Single && |s| > 0 && s[0] != '\'' && s[0] != '\\'
    ensures Misread(Lex(mode, Inside(s), word), s)
    decreases |s|, 0
  {
    InsideCons(s);
    var tail, words := Inside(s[1..]), Lex(mode, Inside(s), word);
    assert Inside(s) == [s[0]] + tail && Inside(s)[1..] == tail;
    if words.Some? {
      if s[0] == '"' {
        Misaligned(if mode == Unquoted then Double else Unquoted, s[1..], if mode == Unquoted then Some(Text(word)) else word);
        MisreadLater(words, s, 1);
      } else if mode == Unquoted && Blank(s[0]) {
        Misaligned(Unquoted, s[1..], None);
        MisreadLater(Lex(Unquoted, tail, None), s, 1);
      } else {
        Misaligned(mode, s[1..], Some(Text(word) + [s[0]]));
        MisreadLater(words, s, 1);
      }
    }
  }

  ghost predicate HasQuoting(s: string) {
    exists i :: 0 <= i < |s| && QuotingChar(s[i])
  }

  lemma QuotingLater(s: string)
    requires |s| > 0 && HasQuoting(s) && !QuotingChar(s[0])
    ensures HasQuoting(s[1..])
  {
    var i :| 0 <= i < |s| && QuotingChar(s[i]);
    assert s[1..][i - 1] == s[i];
  }

  lemma {:induction false} FlattenOne(word: string, more: seq<string>)
    ensures Flatten([word] + more) == word + Flatten(more)
  {
    assert ([word] + more)[1..] == more;
  }

  /** Reading through a front that does not end in a backslash: what it leaves, and how short what it yields is. */
  lemma {:induction false} LexThrough(mode: Mode, s: string, rest: string, word: Option<string>)
    returns (mode2: Mode, done: seq<string>, word2: Option<string>)
    requires |s| == 0 || s[|s| - 1] != '\\'
    requires Lex(mode, s + rest, word).Some?
    ensures Lex(mode2, rest, word2).Some? && Lex(mode, s + rest, word).value == done + Lex(mode2, rest, word2).value
    ensures |Flatten(done)| + |Text(word2)| <= |Text(word)| + |s|
    ensures mode == Unquoted && HasQuoting(s) ==>
              |Flatten(done)| + |Text(word2)| < |Text(word)| + |s|
    decreases |s|, 2
  {
    if |s| == 0 {
      assert s + rest == rest;
      mode2, done, word2 := mode, [], word;
    } else if mode == Unquoted {
      mode2, done, word2 := LexThroughUnquoted(s, rest, word);
    } else {
      mode2, done, word2 := LexThroughQuoted(mode, s, rest, word);
    }
  }

  lemma {:induction false} LexThroughQuoted(mode: Mode, s: string, rest: string, word: Option<string>)
    returns (mode2: Mode, done: seq<string>, word2: Option<string>)
    requires mode != Unquoted && |s| > 0
    requires |s| == 0 || s[|s| - 1] != '\\'
    requires Lex(mode, s + rest, word).Some?
    ensures Lex(mode2, rest, word2).Some? && Lex(mode, s + rest, word).value == done + Lex(mode2, rest, word2).value
    ensures |Flatten(done)| + |Text(word2)| <= |Text(word)| + |s|
    decreases |s|, 0
  {
    assert (s + rest)[1..] == s[1..] + rest;
    if s[0] == (if mode == Single then '\'' else '"') {
      mode2, done, word2 := LexThrough(Unquoted, s[1..], rest, word);
    } else if mode == Double && s[0] == '\\' && s[1] in "\n$`\"\\" {
      assert (s + rest)[2..] == s[2..] + rest;
      mode2, done, word2 := LexThrough(Double, s[2..], rest, if s[1] == '\n' then word else Some(Text(word) + [s[1]]));
    } else {
      mode2, done, word2 := LexThrough(mode, s[1..], rest, Some(Text(word) + [s[0]]));
    }
  }

  lemma {:induction false} LexThroughUnquoted(s: string, rest: string, word: Option<string>)
    returns (mode2: Mode, done: seq<string>, word2: Option<string>)
    requires |s| > 0 && s[|s| - 1] != '\\'
    requires Lex(Unquoted, s + rest, word).Some?
    ensures Lex(mode2, rest, word2).Some? && Lex(Unquoted, s + rest, word).value == done + Lex(mode2, rest, word2).value
    ensures |Flatten(done)| + |Text(word2)| <= |Text(word)| + |s|
    ensures HasQuoting(s) ==> |Flatten(done)| + |Text(word2)| < |Text(word)| + |s|
    decreases |s|, 1
  {
    assert (s + rest)[1..] == s[1..] + rest;
    if QuotingChar(s[0]) {
      mode2, done, word2 := LexThroughOpening(s, rest, word);
    } else {
      mode2, done, word2 := LexThroughOther(s, rest, word);
    }
  }

  lemma {:induction false} LexThroughOther(s: string, rest: string, word: Option<string>)
    returns (mode2: Mode, done: seq<string>, word2: Option<string>)
    requires |s| > 0 && s[|s| - 1] != '\\' && !QuotingChar(s[0])
    requires Lex(Unquoted, s + rest, word).Some?
    ensures Lex(mode2, rest, word2).Some? && Lex(Unquoted, s + rest, word).value == done + Lex(mode2, rest, word2).value
    ensures |Flatten(done)| + |Text(word2)| <= |Text(word)| + |s|
    ensures HasQuoting(s) ==> |Flatten(done)| + |Text(word2)| < |Text(word)| + |s|
    decreases |s|, 0
  {
    assert (s + rest)[1..] == s[1..] + rest;
    if HasQuoting(s) { QuotingLater(s); }
    if Blank(s[0]) {
      mode2, done, word2 := LexThrough(Unquoted, s[1..], rest, None);
      if word.Some? {
        FlattenOne(word.value, done);
        done := [word.value] + done;
      }
    } else {
      mode2, done, word2 := LexThrough(Unquoted, s[1..], rest, Some(Text(word) + [s[0]]));
    }
  }

  lemma {:induction false} LexThroughOpening(s: string, rest: string, word: Option<string>)
    returns (mode2: Mode, done: seq<string>, word2: Option<string>)
    requires |s| > 0 && s[|s| - 1] != '\\' && QuotingChar(s[0])
    requires Lex(Unquoted, s + rest, word).Some?
    ensures Lex(mode2, rest, word2).Some? && Lex(Unquoted, s + rest, word).value == done + Lex(mode2, rest, word2).value
    ensures |Flatten(done)| + |Text(word2)| <= |Text(word)| + |s|
    ensures HasQuoting(s) ==> |Flatten(done)| + |Text(word2)| < |Text(word)| + |s|
    decreases |s|, 0
  {
    assert (s + rest)[1..] == s[1..] + rest;
    if s[0] == '\'' {
      mode2, done, word2 := LexThrough(Single, s[1..], rest, Some(Text(word)));
    } else if s[0] == '"' {
      mode2, done, word2 := LexThrough(Double, s[1..], rest, Some(Text(word)));
    } else {
      assert (s + rest)[2..] == s[2..] + rest;
      mode2, done, word2 := LexThrough(Unquoted, s[2..], rest, if s[1] == '\n' then word else Some(Text(word) + [s[1]]));
    }
  }

  /** Inside quotes ordinary characters are taken as they are. */
  lemma {:induction false} LexOrdinary(mode: Mode, text: string, tail: string, word: Option<string>)
    requires mode != Unquoted && |text| > 0 && forall i :: 0 <= i < |text| ==> text[i] == ' ' || Plain(text[i])
    ensures Lex(mode, text + tail, word) == Lex(mode, tail, Some(Text(word) + text))
    decreases |text|
  {
    assert (text + tail)[1..] == text[1..] + tail;
    if |text| == 1 {
      assert text[1..] + tail == tail && [text[0]] == text;
    } else {
      LexOrdinary(mode, text[1..], tail, Some(Text(word) + [text[0]]));
      Assoc(Text(word), [text[0]], text[1..]);
      assert [text[0]] + text[1..] == text;
    }
  }

  /** Between the shell's path and the script's opening quote. */
  lemma {:induction false} LexOption(script: string, word: Option<string>)
    ensures Lex(Unquoted, " -c " + Quote(script), word) == Some((if word == None then [] else [word.value]) + (["-c"] + [script]))
  {
    var rest := "-c" + " " + Quote(script);
    PlainDenotes("-c");
    QuoteDenotes(script);
    DenotesTwo("-c", ["-c"], Quote(script), [script]);
    assert " -c " + Quote(script) == " " + rest && (" " + rest)[1..] == rest;
    assert [] + (["-c"] + [script]) == ["-c"] + [script];
  }

  lemma {:induction false} LexOptionQuoted(mode: Mode, script: string, word: Option<string>)
    requires mode != Unquoted
    ensures Misread(Lex(mode, " -c " + Quote(script), word), script)
  {
    LexOrdinary(mode, " -c ", Quote(script), word);
    var glued := Text(word) + " -c ";
    assert Quote(script) == "'" + Inside(script) && Quote(script)[1..] == Inside(script);
    if mode == Single {
      Misaligned(Unquoted, script, Some(glued));
    } else {
      Misaligned(Double, script, Some(glued + "'"));
    }
  }

  /** A path with a quoting character in it is not read as itself, or the script is not. */
  lemma {:induction false} QuotingPathMisread(sh: string, script: string)
    requires |sh| > 0 && sh[|sh| - 1] != '\\' && HasQuoting(sh)
    ensures Tokenize(sh + (" -c " + Quote(script))) != Some([sh, "-c", script])
  {
    var rest := " -c " + Quote(script);
    if Tokenize(sh + rest).Some? {
      var mode, done, word := LexThrough(Unquoted, sh, rest, None);
      if mode == Unquoted {
        LexOption(script, word);
        NotOnlyPath(sh, script, done, word);
      } else {
        LexOptionQuoted(mode, script, word);
        MisreadWhole(sh, script, done, Lex(mode, rest, word).value);
      }
    }
  }

  lemma MisreadWhole(sh: string, script: string, done: seq<string>, read: seq<string>)
    requires Misread(Some(read), script)
    ensures done + read != [sh, "-c", script]
  {
    assert (done + read)[|done + read| - 1] == read[|read| - 1] != script;
  }

  lemma {:induction false} NotOnlyPath(sh: string, script: string, done: seq<string>, word: Option<string>)
    requires |Flatten(done)| + |Text(word)| < |sh|
    ensures done + ((if word == None then [] else [word.value]) + (["-c"] + [script])) != [sh, "-c", script]
  {
    var first := if word == None then [] else [word.value];
    if word.Some? { FlattenOne(word.value, []); }
    if done + (first + (["-c"] + [script])) == [sh, "-c", script] {
      OnlyPath(sh, script, done, first);
    }
  }

  lemma {:induction false} OnlyPath(sh: string, script: string, done: seq<string>, first: seq<string>)
    requires [sh, "-c", script] == done + (first + (["-c"] + [script])) && |first| <= 1
    ensures (done == [sh] && first == []) || (done == [] && first == [sh])
    ensures |Flatten(done)| + |Flatten(first)| == |sh|
  {
    assert (done + first) + (["-c"] + [script]) == done + (first + (["-c"] + [script]));
    assert |done + first| == 1 && (done + first)[0] == [sh, "-c", script][0];
    assert Flatten([sh]) == sh + Flatten([sh][1..]) == sh;
  }

  lemma PathAndScript(home: string, command: string)
    ensures Tokenize(BusyboxLine(home, command)) == Some([ShPath(home), "-c", Wrapped(home, command)]) <==> Literal(home)
  {
    BusyboxLineText(home, command);
    if Literal(home) {
      ScriptLine(ShPath(home), Wrapped(home, command));
    } else if i :| 0 <= i < |home| && QuotingChar(home[i]) {
      assert ShPath(home)[i] == home[i] && HasQuoting(ShPath(home));
      QuotingPathMisread(ShPath(home), Wrapped(home, command));
      assert BusyboxLine(home, command) == ShPath(home) + (" -c " + Quote(Wrapped(home, command)));
    } else {
      var j :| 0 <= j < |home| && !Plain(home[j]) && !(j > 0 && Leading(home[j]));
      assert ShPath(home)[j] == home[j];
      FirstWord(ShPath(home), "-c" + " " + Quote(Wrapped(home, command)), None);
    }
  }

  /**
   * The script reaches the vendored shell verbatim, whatever the command. The shell's own path is not
   * quoted: the line is read as meant exactly when the home stands for itself, every character of it.
   */
  lemma BusyboxLineExact(home: string, command: string)
    ensures var script := "export PATH=" + Quote(home + "/.ssh-remote/bin") + ":$PATH; " + command;
            Tokenize(BusyboxLine(home, command)) == Some([home + "/.ssh-remote/bin/sh", "-c", script]) <==> Literal(home)
  {
    PathAndScript(home, command);
    BusyboxLineText(home, command);
  }

  /** Two levels of quoting undo: what was quoted inside comes back out of the script the outer level returns. */
  lemma {:induction false} TwoLevels(home: string, words: seq<string>)
    requires Literal(home)
    ensures var outer := Tokenize(BusyboxLine(home, Join(QuoteAll(words), " ")));
            && outer.Some? && |outer.value| == 3
            && outer.value[0] == home + "/.ssh-remote/bin/sh" && outer.value[1] == "-c"
            && var prefix := "export PATH=" + Quote(home + "/.ssh-remote/bin") + ":$PATH; ";
               prefix <= outer.value[2] && Tokenize(outer.value[2][|prefix|..]) == Some(words)
  {
    BusyboxLineExact(home, Join(QuoteAll(words), " "));
    QuoteRoundTrip(words);
    var prefix := "export PATH=" + Quote(ToolsDir(home)) + ":$PATH; ";
    assert Wrapped(home, Join(QuoteAll(words), " "))[|prefix|..] == Join(QuoteAll(words), " ");
  }
}
