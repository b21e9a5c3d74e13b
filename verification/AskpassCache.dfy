/** Which key file an askpass prompt is about. */
module AskpassPrompt {
  import opened Basics

  /** Where a text first occurs in another. */
  function IndexOf(s: string, pattern: string): (r: Option<nat>)
    ensures r.Some? ==> r.value + |pattern| <= |s| && pattern <= s[r.value..]
  {
    if pattern <= s then Some(0)
    else if s == "" then None
    else
      match IndexOf(s[1..], pattern)
      case None => None
      case Some(i) => Some(i + 1)
  }

  /** It occurs nowhere before that, and nowhere at all if there is no result. */
  lemma {:induction false} IndexOfFirst(s: string, pattern: string, j: nat)
    requires j <= |s| && (IndexOf(s, pattern).Some? ==> j < IndexOf(s, pattern).value)
    ensures !(pattern <= s[j..])
  {
    if j == 0 {
      assert s[0..] == s;
    } else if !(pattern <= s) {
      IndexOfFirst(s[1..], pattern, j - 1);
      assert s[1..][j - 1..] == s[j..];
    }
  }

  const FOR_KEY: string := "for key"
  const QUOTE: string := "'"

  /** The text between the first two quotes after the first occurrence of a word. */
  function ParseAfter(prompt: string, word: string): Option<string> {
    var idx := IndexOf(prompt, word);
    if idx == None then None else ParseQuoted(prompt[idx.value + |word|..])
  }

  function ParseQuoted(afterKey: string): Option<string> {
    var start := IndexOf(afterKey, QUOTE);
    if start == None then None
    else
      var end := IndexOf(afterKey[start.value + 1..], QUOTE);
      if end == None then None else Some(afterKey[start.value + 1..][..end.value])
  }

  function ParseKeyPath(prompt: string): Option<string> {
    ParseAfter(prompt, FOR_KEY)
  }

  lemma {:induction false} IndexOfChar(before: string, after: string)
    requires '\'' !in before
    ensures IndexOf(before + QUOTE + after, QUOTE) == Some(|before|)
  {
    var s := before + QUOTE + after;
    if |before| > 0 {
      IndexOfChar(before[1..], after);
      assert s[1..] == before[1..] + QUOTE + after;
      assert s[0] == before[0];
    }
  }

  lemma {:induction false} NotBeforeIndex(s: string, c: char)
    requires IndexOf(s, [c]).Some?
    ensures c !in s[..IndexOf(s, [c]).value]
  {
    if !([c] <= s) {
      NotBeforeIndex(s[1..], c);
      var i := IndexOf(s, [c]).value;
      assert s[..i] == [s[0]] + s[1..][..i - 1];
    }
  }

  lemma {:induction false} IndexOfWord(s: string, k: nat, pattern: string)
    requires |pattern| > 0 && k <= |s| && pattern <= s[k..]
    requires forall i :: 0 <= i < k ==> s[i] != pattern[0]
    ensures IndexOf(s, pattern) == Some(k)
  {
    if k == 0 {
      assert s[0..] == s;
    } else {
      assert s[1..][k - 1..] == s[k..];
      IndexOfWord(s[1..], k - 1, pattern);
      IndexOfLater(s, pattern);
    }
  }

  lemma {:induction false} IndexOfLater(s: string, pattern: string)
    requires |s| > 0 && |pattern| > 0 && s[0] != pattern[0]
    ensures IndexOf(s, pattern) == match IndexOf(s[1..], pattern) case None => None case Some(i) => Some(i + 1)
  {
    assert !(pattern <= s);
  }

  ghost predicate Pieces(prompt: string, word: string, before: string, gap: string, path: string, after: string) {
    && prompt == before + word + (gap + QUOTE + (path + QUOTE + after))
    && IndexOf(prompt, word) == Some(|before|)
    && '\'' !in gap && '\'' !in path
  }

  lemma ParsePieces(prompt: string, word: string, before: string, gap: string, path: string, after: string)
    requires Pieces(prompt, word, before, gap, path, after)
    ensures ParseAfter(prompt, word) == Some(path)
  {
    assert prompt[|before| + |word|..] == gap + QUOTE + (path + QUOTE + after);
    ReadQuoted(gap, path, after);
  }

  lemma ReadQuoted(gap: string, path: string, after: string)
    requires '\'' !in gap && '\'' !in path
    ensures ParseQuoted(gap + QUOTE + (path + QUOTE + after)) == Some(path)
  {
    AfterQuote(gap, path + QUOTE + after);
    AfterQuote(path, after);
  }

  lemma AfterQuote(front: string, back: string)
    requires '\'' !in front
    ensures var s := front + QUOTE + back;
            IndexOf(s, QUOTE) == Some(|front|) && s[..|front|] == front && s[|front| + 1..] == back
  {
    IndexOfChar(front, back);
  }

  lemma CutAtQuote(s: string) returns (front: string, back: string)
    requires IndexOf(s, QUOTE).Some?
    ensures var i := IndexOf(s, QUOTE).value;
            i < |s| && front == s[..i] && back == s[i + 1..] && s == front + QUOTE + back && '\'' !in front
  {
    var i := IndexOf(s, QUOTE).value;
    NotBeforeIndex(s, '\'');
    front, back := s[..i], s[i + 1..];
  }

  lemma FindPieces(prompt: string, word: string) returns (before: string, gap: string, after: string)
    requires ParseAfter(prompt, word).Some?
    ensures Pieces(prompt, word, before, gap, ParseAfter(prompt, word).value, after)
  {
    var i := IndexOf(prompt, word).value;
    before := prompt[..i];
    gap, after := FindQuoted(prompt[i + |word|..]);
    CutOut(prompt, i, word);
  }

  lemma CutOut(s: string, i: nat, word: string)
    requires i + |word| <= |s| && word <= s[i..]
    ensures s == s[..i] + word + s[i + |word|..]
  {
    assert s[i..][..|word|] == word && s[i..i + |word|] == word;
  }

  lemma FindQuoted(rest: string) returns (gap: string, after: string)
    requires ParseQuoted(rest).Some?
    ensures var path := ParseQuoted(rest).value;
            rest == gap + QUOTE + (path + QUOTE + after) && '\'' !in gap && '\'' !in path
  {
    var tail, path;
    gap, tail := CutAtQuote(rest);
    path, after := CutAtQuote(tail);
  }

  /**
   * Exactly what is taken for the path: the text between the first two quotes after the first "for key".
   */
  lemma ParseKeyPathExact(prompt: string, path: string)
    ensures ParseKeyPath(prompt) == Some(path)
       <==> exists before, gap, after :: Pieces(prompt, FOR_KEY, before, gap, path, after)
  {
    if ParseKeyPath(prompt) == Some(path) {
      var before, gap, after := FindPieces(prompt, FOR_KEY);
    }
    if before, gap, after :| Pieces(prompt, FOR_KEY, before, gap, path, after) {
      ParsePieces(prompt, FOR_KEY, before, gap, path, after);
    }
  }

  lemma PromptPath(word: string, before: string, gap: string, path: string, after: string)
    requires |word| > 0 && word[0] !in before && '\'' !in gap
    ensures ParseAfter(before + word + (gap + QUOTE + (path + QUOTE + after)), word) == Some(path) <==> '\'' !in path
  {
    var tail := gap + QUOTE + (path + QUOTE + after);
    var prompt := before + word + tail;
    Assoc(before, word, tail);
    assert prompt[|before|..] == word + tail;
    IndexOfWord(prompt, |before|, word);
    if '\'' !in path {
      ParsePieces(prompt, word, before, gap, path, after);
    }
    if ParseAfter(prompt, word) == Some(path) {
      var _, _, _ := FindPieces(prompt, word);
    }
  }

  lemma PromptText(path: string)
    ensures "Enter passphrase for key '" + path + "': "
         == "Enter passphrase " + FOR_KEY + (" " + QUOTE + (path + QUOTE + ": "))
  {
    assert "Enter passphrase for key '" == "Enter passphrase " + FOR_KEY + " " + QUOTE;
    assert "': " == QUOTE + ": ";
  }

  /** OpenSSH's prompt yields the key's path, unless the path itself has a quote in it. */
  lemma OpenSshPrompt(path: string)
    ensures ParseKeyPath("Enter passphrase for key '" + path + "': ") == Some(path) <==> '\'' !in path
  {
    PromptText(path);
    PromptPath(FOR_KEY, "Enter passphrase ", " ", path, ": ");
  }
}

/**
 * The persistent askpass cache, with ideal cryptography: a digest hides a prompt but is never the digest of
 * another, and a sealed entry opens under the key it was sealed with and no other.
 */
module AskpassCache {
  import opened Basics
  import opened AskpassPrompt

  datatype Plaintext = Plaintext(password: string, keyPath: string, storedAt: int, keyMtime: int)
  datatype Digest = Digest(key: nat, prompt: string)
  datatype Sealed = Sealed(key: nat, plain: Plaintext)

  /** The clock, and the modification times of the files that exist. */
  datatype Env = Env(now: int, mtimes: map<string, int>)

  function Open(key: nat, entry: Sealed): Option<Plaintext> {
    if entry.key == key then Some(entry.plain) else None
  }

  predicate Acceptable(ttl: nat, env: Env, plain: Plaintext) {
    && !(ttl > 0 && env.now - plain.storedAt > ttl)
    && (plain.keyPath != "" && plain.keyMtime > 0 ==>
          plain.keyPath in env.mtimes && env.mtimes[plain.keyPath] == plain.keyMtime)
  }

  /** The plain prompt map the encrypted database stands for. */
  function Live(key: nat, db: map<Digest, Sealed>): map<string, Plaintext> {
    map d | d in db && d.key == key && db[d].key == key :: d.prompt := db[d].plain
  }

  lemma LiveAt(key: nat, db: map<Digest, Sealed>, prompt: string)
    ensures prompt in Live(key, db) <==> Digest(key, prompt) in db && db[Digest(key, prompt)].key == key
    ensures prompt in Live(key, db) ==> Live(key, db)[prompt] == db[Digest(key, prompt)].plain
  {
    if Digest(key, prompt) in db && db[Digest(key, prompt)].key == key {
      assert Digest(key, prompt).prompt in Live(key, db);
    }
  }

  /** Keeping just the entries that open and are acceptable keeps just the acceptable prompts. */
  lemma SweptLive(ttl: nat, key: nat, was: map<Digest, Sealed>, db: map<Digest, Sealed>, env: Env, p: string)
    requires forall d :: d in db <==> d in was && was[d].key == key && Acceptable(ttl, env, was[d].plain)
    requires forall d :: d in db ==> db[d] == was[d]
    ensures At(Live(key, db), p)
         == if p in Live(key, was) && Acceptable(ttl, env, Live(key, was)[p]) then At(Live(key, was), p) else None
  {
    LiveAt(key, was, p);
    LiveAt(key, db, p);
  }

  // --- the plain map, told by its history ---

  datatype Op =
    | Set(prompt: string, plain: Plaintext)  // a successful set
    | Get(prompt: string, env: Env)
    | Evict(prompt: string)
    | Sweep(env: Env)
    | Clear                                  // clearAll, a key rotation, or the whole-file wipe

  function At(m: map<string, Plaintext>, prompt: string): Option<Plaintext> {
    if prompt in m then Some(m[prompt]) else None
  }

  /** The latest set of a prompt that was not since evicted or cleared. */
  function LastSet(base: map<string, Plaintext>, history: seq<Op>, prompt: string): Option<Plaintext>
    decreases |history|
  {
    if |history| == 0 then At(base, prompt)
    else
      var before := LastSet(base, history[..|history| - 1], prompt);
      match history[|history| - 1]
      case Set(p, plain) => if p == prompt then Some(plain) else before
      case Evict(p) => if p == prompt then None else before
      case Clear => None
      case _ => before
  }

  /** Whether a get or a sweep since that set found it unacceptable. */
  function Rejected(ttl: nat, base: map<string, Plaintext>, history: seq<Op>, prompt: string): bool
    decreases |history|
  {
    if |history| == 0 then false
    else
      var front := history[..|history| - 1];
      var before := Rejected(ttl, base, front, prompt);
      var last := LastSet(base, front, prompt);
      match history[|history| - 1]
      case Set(p, _) => p != prompt && before
      case Get(p, env) => before || (p == prompt && last.Some? && !Acceptable(ttl, env, last.value))
      case Sweep(env) => before || (last.Some? && !Acceptable(ttl, env, last.value))
      case _ => before
  }

  function Standing(ttl: nat, base: map<string, Plaintext>, history: seq<Op>, prompt: string): Option<Plaintext> {
    if Rejected(ttl, base, history, prompt) then None else LastSet(base, history, prompt)
  }

  // --- the standing entry, told by positions ---

  /** An operation that ends what was set before. */
  predicate Undoes(op: Op, prompt: string) {
    op == Clear || op == Evict(prompt) || (op.Set? && op.prompt == prompt)
  }

  /** A get of this prompt or a sweep that finds the entry over its time to live, or its key file changed or gone. */
  predicate Rejects(ttl: nat, op: Op, prompt: string, plain: Plaintext) {
    && ((op.Get? && op.prompt == prompt) || op.Sweep?)
    && (|| (ttl > 0 && op.env.now - plain.storedAt > ttl)
        || (plain.keyPath != "" && plain.keyMtime > 0
            && !(plain.keyPath in op.env.mtimes && op.env.mtimes[plain.keyPath] == plain.keyMtime)))
  }

  /** The entry was set by operation i, or was there at first for i = -1, and nothing undid or rejected it since. */
  ghost predicate KeptSince(ttl: nat, base: map<string, Plaintext>, history: seq<Op>, prompt: string, plain: Plaintext, i: int) {
    && -1 <= i < |history|
    && (if i == -1 then prompt in base && base[prompt] == plain else history[i] == Set(prompt, plain))
    && forall j: int :: i < j < |history| ==> !Undoes(history[j], prompt) && !Rejects(ttl, history[j], prompt, plain)
  }

  ghost predicate Kept(ttl: nat, base: map<string, Plaintext>, history: seq<Op>, prompt: string, plain: Plaintext) {
    exists i: int :: KeptSince(ttl, base, history, prompt, plain, i)
  }

  lemma KeptStep(ttl: nat, base: map<string, Plaintext>, front: seq<Op>, op: Op, prompt: string, plain: Plaintext)
    ensures Kept(ttl, base, front + [op], prompt, plain) <==>
              || op == Set(prompt, plain)
              || (Kept(ttl, base, front, prompt, plain) && !Undoes(op, prompt) && !Rejects(ttl, op, prompt, plain))
  {
    var h := front + [op];
    if op == Set(prompt, plain) {
      assert KeptSince(ttl, base, h, prompt, plain, |front|);
    }
    if i: int :| KeptSince(ttl, base, front, prompt, plain, i) && !Undoes(op, prompt) && !Rejects(ttl, op, prompt, plain) {
      assert KeptSince(ttl, base, h, prompt, plain, i);
    }
    if i: int :| KeptSince(ttl, base, h, prompt, plain, i) && i < |front| {
      assert h[|front|] == op;
      assert forall j: int :: i < j < |front| ==> h[j] == front[j];
      assert KeptSince(ttl, base, front, prompt, plain, i);
    }
  }

  /** The recursive account of the history agrees with the one by positions. */
  lemma {:induction false} StandingExactly(ttl: nat, base: map<string, Plaintext>, history: seq<Op>, prompt: string)
    ensures forall plain :: Standing(ttl, base, history, prompt) == Some(plain) <==> Kept(ttl, base, history, prompt, plain)
    decreases |history|
  {
    if |history| == 0 {
      forall plain
        ensures At(base, prompt) == Some(plain) <==> Kept(ttl, base, history, prompt, plain)
      {
        assert KeptSince(ttl, base, history, prompt, plain, -1) <==> At(base, prompt) == Some(plain);
      }
    } else {
      var front, op := history[..|history| - 1], history[|history| - 1];
      assert history == front + [op];
      StandingExactly(ttl, base, front, prompt);
      StandingAfter(ttl, base, front, op, prompt);
      forall plain
        ensures Standing(ttl, base, history, prompt) == Some(plain) <==> Kept(ttl, base, history, prompt, plain)
      {
        KeptStep(ttl, base, front, op, prompt, plain);
      }
    }
  }

  /** What one operation does to the standing entry of a prompt. */
  function After(ttl: nat, op: Op, prompt: string, standing: Option<Plaintext>): Option<Plaintext> {
    match op
    case Set(p, plain) => if p == prompt then Some(plain) else standing
    case Get(p, env) =>
      if p == prompt && standing.Some? && !Acceptable(ttl, env, standing.value) then None else standing
    case Evict(p) => if p == prompt then None else standing
    case Sweep(env) => if standing.Some? && !Acceptable(ttl, env, standing.value) then None else standing
    case Clear => None
  }

  /** The standing entry can be kept up to date one operation at a time. */
  lemma StandingAfter(ttl: nat, base: map<string, Plaintext>, history: seq<Op>, op: Op, prompt: string)
    ensures Standing(ttl, base, history + [op], prompt) == After(ttl, op, prompt, Standing(ttl, base, history, prompt))
  {
    var longer := history + [op];
    assert longer[|longer| - 1] == op && longer[..|longer| - 1] == history;
  }

  /** What get answers from a plain map. */
  function Answer(ttl: nat, m: map<string, Plaintext>, env: Env, prompt: string): Option<string> {
    if prompt in m && Acceptable(ttl, env, m[prompt]) then Some(m[prompt].password) else None
  }

  ghost predicate SameAnswers(ttl: nat, env: Env, was: map<string, Plaintext>, now: map<string, Plaintext>) {
    forall p :: Answer(ttl, now, env, p) == Answer(ttl, was, env, p)
  }

  /** A rejected entry does not come back by itself, whatever happens to the clock or the key file. */
  lemma {:induction false} RejectedStaysAway(ttl: nat, base: map<string, Plaintext>, history: seq<Op>, more: seq<Op>, prompt: string)
    requires Standing(ttl, base, history, prompt) == None
    requires forall i :: 0 <= i < |more| ==> !(more[i].Set? && more[i].prompt == prompt)
    ensures Standing(ttl, base, history + more, prompt) == None
    decreases |more|
  {
    if |more| == 0 {
      assert history + more == history;
    } else {
      var front := more[..|more| - 1];
      RejectedStaysAway(ttl, base, history, front, prompt);
      assert (history + more)[..|history + more| - 1] == history + front;
    }
  }

  /** A database and a history agree on every prompt. */
  ghost predicate Tracks(ttl: nat, base: map<string, Plaintext>, history: seq<Op>, key: nat, db: map<Digest, Sealed>) {
    forall prompt :: At(Live(key, db), prompt) == Standing(ttl, base, history, prompt)
  }

  ghost predicate Follows(ttl: nat, op: Op, prompt: string, was: map<string, Plaintext>, now: map<string, Plaintext>) {
    At(now, prompt) == After(ttl, op, prompt, At(was, prompt))
  }

  lemma TracksAfter(ttl: nat, base: map<string, Plaintext>, history: seq<Op>, op: Op,
                    key: nat, was: map<Digest, Sealed>, newKey: nat, db: map<Digest, Sealed>)
    requires Tracks(ttl, base, history, key, was)
    requires forall p :: Follows(ttl, op, p, Live(key, was), Live(newKey, db))
    ensures Tracks(ttl, base, history + [op], newKey, db)
  {
    forall p
      ensures At(Live(newKey, db), p) == Standing(ttl, base, history + [op], p)
    {
      StandingAfter(ttl, base, history, op, p);
      assert Follows(ttl, op, p, Live(key, was), Live(newKey, db));
    }
  }

  lemma RemovedLive(key: nat, was: map<Digest, Sealed>, prompt: string, p: string)
    ensures At(Live(key, was - {Digest(key, prompt)}), p) == if p == prompt then None else At(Live(key, was), p)
  {
    LiveAt(key, was, p);
    LiveAt(key, was - {Digest(key, prompt)}, p);
  }

  lemma StoredLive(key: nat, was: map<Digest, Sealed>, prompt: string, plain: Plaintext, p: string)
    ensures At(Live(key, was[Digest(key, prompt) := Sealed(key, plain)]), p)
         == if p == prompt then Some(plain) else At(Live(key, was), p)
  {
    LiveAt(key, was, p);
    LiveAt(key, was[Digest(key, prompt) := Sealed(key, plain)], p);
  }

  // --- the cache ---

  class PersistentAskpassCache {
    const ttl: nat
    var key: nat
    var db: map<Digest, Sealed>
    var fileMtime: int              // when the database file was last written
    var ready: bool                 // the keys are there and the database is open
    ghost const base: map<string, Plaintext>  // what earlier sessions left
    ghost var history: seq<Op>

    ghost function Plain(): map<string, Plaintext>
      reads this
    {
      Live(key, db)
    }

    /** The encrypted database and the plain history agree on every prompt. */
    ghost predicate Valid()
      reads this
    {
      Tracks(ttl, base, history, key, db)
    }

    /** No entry is younger than the file that holds it. */
    ghost predicate Stamped()
      reads this
    {
      forall d :: d in db ==> db[d].plain.storedAt <= fileMtime
    }

    /** The cache on an existing file and master key; until it is initialized it answers nothing. */
    constructor (ttl: nat, key: nat, db: map<Digest, Sealed>, fileMtime: int)
      ensures Valid() && history == [] && this.db == db && this.key == key && this.ttl == ttl && this.fileMtime == fileMtime && !ready
      ensures forall p :: p in base <==> Digest(key, p) in db && db[Digest(key, p)].key == key
      ensures forall p :: p in base ==> base[p] == db[Digest(key, p)].plain
    {
      this.ttl, this.key, this.db, this.fileMtime, ready := ttl, key, db, fileMtime, false;
      base, history := Live(key, db), [];
      new;
      forall p
        ensures p in Live(key, db) <==> Digest(key, p) in db && db[Digest(key, p)].key == key
        ensures p in Live(key, db) ==> Live(key, db)[p] == db[Digest(key, p)].plain
      {
        LiveAt(key, db, p);
      }
    }

    ghost method Record(op: Op)
      modifies this`history
      ensures history == old(history) + [op] && |history| > 0 && history[..|history| - 1] == old(history)
    {
      history := history + [op];
    }

    method Remove(d: Digest, env: Env)
      modifies this`db, this`fileMtime
      ensures db == old(db) - {d} && fileMtime == env.now
    {
      db := db - {d};
      fileMtime := env.now;
    }

    method Lookup(prompt: string, env: Env) returns (r: Option<string>)
      requires Valid()
      modifies this
      ensures Valid() && ready == old(ready) && key == old(key)
      ensures !ready ==> r == None && db == old(db) && history == old(history)
      ensures ready ==> history == old(history) + [Get(prompt, env)]
      ensures ready ==> r == match Standing(ttl, base, old(history), prompt)
                             case None => None
                             case Some(plain) => if Acceptable(ttl, env, plain) then Some(plain.password) else None
      ensures old(Stamped()) && env.now >= old(fileMtime) ==> Stamped()
    {
      if !ready { return None; }
      var d := Digest(key, prompt);
      LiveAt(key, db, prompt);
      assert At(Live(key, db), prompt) == Standing(ttl, base, history, prompt);
      ghost var was := db;
      r := None;
      if d in db {
        var plain := Open(key, db[d]);
        if plain == None {
          Remove(d, env);
        } else if ttl > 0 && env.now - plain.value.storedAt > ttl {
          Remove(d, env);
        } else if plain.value.keyPath != "" && plain.value.keyMtime > 0
                  && !(plain.value.keyPath in env.mtimes && env.mtimes[plain.value.keyPath] == plain.value.keyMtime) {
          Remove(d, env);
        } else {
          r := Some(plain.value.password);
        }
      }
      forall p
        ensures Follows(ttl, Get(prompt, env), p, Live(key, was), Live(key, db))
      {
        RemovedLive(key, was, prompt, p);
      }
      TracksAfter(ttl, base, history, Get(prompt, env), key, was, key, db);
      Record(Get(prompt, env));
    }

    method Put(prompt: string, plain: Plaintext, env: Env)
      requires Valid() && plain.storedAt == env.now
      modifies this
      ensures Valid() && key == old(key) && ready == old(ready) && history == old(history) + [Set(prompt, plain)]
      ensures old(Stamped()) && env.now >= old(fileMtime) ==> Stamped()
    {
      ghost var was := db;
      db := db[Digest(key, prompt) := Sealed(key, plain)];
      fileMtime := env.now;
      forall p
        ensures Follows(ttl, Set(prompt, plain), p, Live(key, was), Live(key, db))
      {
        StoredLive(key, was, prompt, plain, p);
      }
      TracksAfter(ttl, base, history, Set(prompt, plain), key, was, key, db);
      Record(Set(prompt, plain));
    }

    /** `valid` is ssh-keygen's verdict on a key passphrase. */
    method Store(prompt: string, password: string, skipValidation: bool, valid: bool, env: Env) returns (stored: bool)
      requires Valid()
      modifies this
      ensures Valid() && key == old(key) && ready == old(ready)
      ensures stored <==> ready && (ParseKeyPath(prompt) in {None, Some("")} || skipValidation || valid)
      ensures !stored ==> db == old(db) && history == old(history)
      ensures stored ==>
                var path := ParseKeyPath(prompt);
                var file := if path.Some? then path.value else "";
                history == old(history) + [Set(prompt, Plaintext(password, file, env.now,
                  if file != "" && file in env.mtimes then env.mtimes[file] else 0))]
      ensures old(Stamped()) && env.now >= old(fileMtime) ==> Stamped()
    {
      if !ready { return false; }
      var keyPath := ParseKeyPath(prompt);
      if keyPath.Some? && keyPath.value != "" && !skipValidation && !valid { return false; }
      var keyMtime := 0;
      if keyPath.Some? && keyPath.value != "" && keyPath.value in env.mtimes {
        keyMtime := env.mtimes[keyPath.value];
      }
      var plain := Plaintext(password, if keyPath.Some? then keyPath.value else "", env.now, keyMtime);
      Put(prompt, plain, env);
      stored := true;
    }

    method Forget(prompt: string, env: Env)
      requires Valid()
      modifies this
      ensures Valid() && key == old(key) && ready == old(ready)
      ensures if ready then history == old(history) + [Evict(prompt)] else history == old(history)
      ensures old(Stamped()) && env.now >= old(fileMtime) ==> Stamped()
    {
      if !ready { return; }
      ghost var was := db;
      Remove(Digest(key, prompt), env);
      forall p
        ensures Follows(ttl, Evict(prompt), p, Live(key, was), Live(key, db))
      {
        RemovedLive(key, was, prompt, p);
      }
      TracksAfter(ttl, base, history, Evict(prompt), key, was, key, db);
      Record(Evict(prompt));
    }

    method CollectExpired(env: Env) returns (toEvict: set<Digest>)
      ensures forall d :: d in toEvict <==> d in db && !(db[d].key == key && Acceptable(ttl, env, db[d].plain))
    {
      var pending := db.Keys;
      toEvict := {};
      while pending != {}
        invariant pending <= db.Keys && toEvict <= db.Keys - pending
        invariant forall d :: d in db.Keys - pending ==>
                    (d in toEvict <==> !(db[d].key == key && Acceptable(ttl, env, db[d].plain)))
        decreases |pending|
      {
        var d :| d in pending;
        pending := pending - {d};
        var plain := Open(key, db[d]);
        if plain == None {
          toEvict := toEvict + {d};
        } else if ttl > 0 && env.now - plain.value.storedAt > ttl {
          toEvict := toEvict + {d};
        } else if plain.value.keyPath != "" && plain.value.keyMtime > 0 {
          if !(plain.value.keyPath in env.mtimes && env.mtimes[plain.value.keyPath] == plain.value.keyMtime) {
            toEvict := toEvict + {d};
          }
        }
      }
    }

    method DropExpired(env: Env)
      modifies this`db, this`fileMtime
      ensures forall d :: d in db <==> d in old(db) && old(db)[d].key == key && Acceptable(ttl, env, old(db)[d].plain)
      ensures forall d :: d in db ==> db[d] == old(db)[d]
      ensures old(Stamped()) && env.now >= old(fileMtime) ==> Stamped()
    {
      var toEvict := CollectExpired(env);
      if toEvict != {} {
        db := db - toEvict;
        fileMtime := env.now;
      }
      if |db| == 0 {
        fileMtime := env.now;
      }
    }

    /** Invisible at the instant it runs: every prompt would have got the same answer without it. */
    method SweepExpired(env: Env)
      requires Valid()
      modifies this
      ensures Valid() && ready == old(ready) && key == old(key)
      ensures history == if ready then old(history) + [Sweep(env)] else old(history)
      ensures SameAnswers(ttl, env, old(Plain()), Plain())
      ensures ready ==> AllFresh(ttl, key, db, env)
      ensures old(Stamped()) && env.now >= old(fileMtime) ==> Stamped()
    {
      if !ready { return; }
      ghost var was := db;
      DropExpired(env);
      forall p
        ensures Follows(ttl, Sweep(env), p, Live(key, was), Live(key, db))
        ensures Answer(ttl, Live(key, db), env, p) == Answer(ttl, Live(key, was), env, p)
      {
        SweptLive(ttl, key, was, db, env, p);
      }
      TracksAfter(ttl, base, history, Sweep(env), key, was, key, db);
      Record(Sweep(env));
    }

    method ClearAll(env: Env)
      requires Valid()
      modifies this
      ensures Valid() && key == old(key) && ready == old(ready)
      ensures if ready then db == map[] && history == old(history) + [Clear] else db == old(db) && history == old(history)
    {
      if !ready { return; }
      db := map[];
      fileMtime := env.now;
      Record(Clear);
    }

    /** The database goes with the key: no entry could be found or opened under the new one. */
    method RotateMasterKey(newKey: nat, env: Env)
      requires Valid() && ready
      modifies this
      ensures Valid() && ready && key == newKey && db == map[] && history == old(history) + [Clear]
    {
      db := map[];
      fileMtime := env.now;
      key := newKey;
      Record(Clear);
    }

    /**
     * The start-up wipe of a file not written for longer than the TTL. It changes no answer exactly if no
     * entry could have been one any more; that is so if no entry is younger than the file.
     */
    method WipeIfStale(env: Env) returns (wiped: bool)
      requires Valid()
      modifies this
      ensures Valid() && key == old(key) && ready == old(ready)
      ensures wiped <==> ttl > 0 && env.now - old(fileMtime) > ttl
      ensures history == old(history) + if wiped then [Clear] else []
      ensures db == if wiped then map[] else old(db)
      ensures SameAnswers(ttl, env, old(Plain()), Plain()) <==> !wiped || AllOutdated(ttl, key, old(db), env)
      ensures wiped && old(Stamped()) ==> AllOutdated(ttl, key, old(db), env)
    {
      wiped := ttl > 0 && env.now - fileMtime > ttl;
      if wiped {
        WipeInvisibleExactly(ttl, key, db, env);
        StampedOutdated(ttl, key, db, fileMtime, env);
        db := map[];
        fileMtime := env.now;
        Record(Clear);
      } else {
        assert history == old(history) + [];
      }
    }

    /** init, from the stale-file check on. Short of a rotation it changes what the wipe changes, and no more. */
    method Init(env: Env, rotationDue: bool, newKey: nat)
      requires Valid()
      modifies this
      ensures Valid() && ready
      ensures AllFresh(ttl, key, db, env)
      ensures history == old(history) + (if ttl > 0 && env.now - old(fileMtime) > ttl then [Clear] else [])
                         + (if rotationDue then [Clear] else []) + [Sweep(env)]
      ensures rotationDue ==> key == newKey && forall p :: Answer(ttl, Plain(), env, p) == None
      ensures !rotationDue ==> key == old(key)
      ensures !rotationDue ==>
                (SameAnswers(ttl, env, old(Plain()), Plain()) <==>
                 !(ttl > 0 && env.now - old(fileMtime) > ttl) || AllOutdated(ttl, key, old(db), env))
    {
      var _ := WipeIfStale(env);
      ready := true;
      if rotationDue {
        RotateMasterKey(newKey, env);
        NoAnswer(ttl, key, env);
      }
      SweepExpired(env);
    }

    /** The file stays; the keys and the open database go. */
    method Dispose()
      requires Valid()
      modifies this`ready
      ensures Valid() && !ready
    {
      ready := false;
    }
  }

  /** No entry that opens under the key can be an answer: each is over its TTL, or its key file has changed. */
  ghost predicate AllOutdated(ttl: nat, key: nat, db: map<Digest, Sealed>, env: Env) {
    forall d :: d in db && d.key == key && db[d].key == key ==>
      var plain := db[d].plain;
      || (ttl > 0 && plain.storedAt < env.now - ttl)
      || (plain.keyPath != "" && plain.keyMtime > 0
          && (plain.keyPath in env.mtimes ==> env.mtimes[plain.keyPath] != plain.keyMtime))
  }

  /** What is in the file opens, is within its TTL, and its key file is as it was. */
  ghost predicate AllFresh(ttl: nat, key: nat, db: map<Digest, Sealed>, env: Env) {
    forall d :: d in db ==>
      var plain := db[d].plain;
      && db[d].key == key && (ttl > 0 ==> env.now - plain.storedAt <= ttl)
      && (plain.keyPath != "" && plain.keyMtime > 0 ==>
            plain.keyPath in env.mtimes && env.mtimes[plain.keyPath] == plain.keyMtime)
  }

  lemma NoAnswer(ttl: nat, key: nat, env: Env)
    ensures forall p :: Answer(ttl, Live(key, map[]), env, p) == None
  {
  }

  lemma StampedOutdated(ttl: nat, key: nat, db: map<Digest, Sealed>, fileMtime: int, env: Env)
    requires ttl > 0 && env.now - fileMtime > ttl
    ensures (forall d :: d in db ==> db[d].plain.storedAt <= fileMtime) ==> AllOutdated(ttl, key, db, env)
  {
  }

  lemma WipeInvisibleExactly(ttl: nat, key: nat, db: map<Digest, Sealed>, env: Env)
    ensures SameAnswers(ttl, env, Live(key, db), Live(key, map[])) <==> AllOutdated(ttl, key, db, env)
  {
    NoAnswer(ttl, key, env);
    if AllOutdated(ttl, key, db, env) {
      forall p
        ensures Answer(ttl, Live(key, db), env, p) == None
      {
        LiveAt(key, db, p);
      }
    } else {
      var d :| && d in db && d.key == key && db[d].key == key && Acceptable(ttl, env, db[d].plain);
      LiveAt(key, db, d.prompt);
      assert d == Digest(key, d.prompt);
      assert Answer(ttl, Live(key, db), env, d.prompt) == Some(db[d].plain.password);
    }
  }

  /** What a visible wipe takes away: an entry still within its TTL, so younger than the file, and unchanged. */
  lemma WipeVisible(ttl: nat, db: map<Digest, Sealed>, fileMtime: int, env: Env, d: Digest)
    requires ttl > 0 && env.now - fileMtime > ttl && d in db && db[d].key == d.key
    requires Acceptable(ttl, env, db[d].plain)
    ensures db[d].plain.storedAt > fileMtime
    ensures Answer(ttl, Live(d.key, db), env, d.prompt) == Some(db[d].plain.password)
    ensures Answer(ttl, Live(d.key, map[]), env, d.prompt) == None
  {
    LiveAt(d.key, db, d.prompt);
    NoAnswer(ttl, d.key, env);
  }

  /**
   * A hit, in terms of the history: the password of the latest set of this prompt not since evicted,
   * cleared or rotated away, acceptable now and never found unacceptable in between; and every such
   * entry is a hit.
   */
  method GetRefinesHistory(cache: PersistentAskpassCache, prompt: string, env: Env) returns (r: Option<string>)
    requires cache.Valid()
    modifies cache
    ensures forall password :: r == Some(password) <==>
              cache.ready && exists plain ::
                && Kept(cache.ttl, cache.base, old(cache.history), prompt, plain) && plain.password == password
                && (cache.ttl > 0 ==> env.now - plain.storedAt <= cache.ttl)
                && (plain.keyPath != "" && plain.keyMtime > 0 ==>
                      plain.keyPath in env.mtimes && env.mtimes[plain.keyPath] == plain.keyMtime)
    ensures cache.ready == old(cache.ready)
  {
    StandingExactly(cache.ttl, cache.base, cache.history, prompt);
    r := cache.Lookup(prompt, env);
  }
}
