/** Lexical paths as Go's path/filepath treats them on Unix. */
module GoPath {
  import opened Basics

  const SEP: char := '/'

  predicate IsAbs(p: string) { |p| > 0 && p[0] == SEP }

  /** Drop empty and "." parts, and let ".." undo the part before it; at the root it undoes nothing. */
  function Normalize(rooted: bool, parts: seq<string>, done: seq<string>): seq<string>
    decreases |parts|
  {
    if |parts| == 0 then done
    else
      var part, rest := parts[0], parts[1..];
      if part == "" || part == "." then Normalize(rooted, rest, done)
      else if part != ".." then Normalize(rooted, rest, done + [part])
      else if |done| > 0 && done[|done| - 1] != ".." then Normalize(rooted, rest, done[..|done| - 1])
      else if rooted then Normalize(rooted, rest, done)
      else Normalize(rooted, rest, done + [part])
  }

  /** The components a path comes down to. */
  function Components(p: string): seq<string> {
    Normalize(IsAbs(p), Split(p, SEP), [])
  }

  function Rooted(parts: seq<string>): string {
    [SEP] + Join(parts, [SEP])
  }

  function Clean(p: string): string {
    var parts := Components(p);
    if IsAbs(p) then Rooted(parts) else if |parts| == 0 then "." else Join(parts, [SEP])
  }

  /** filepath.Join: leading empty elements are ignored. */
  function JoinPath(elems: seq<string>): string {
    if |elems| == 0 then "" else if elems[0] == "" then JoinPath(elems[1..]) else Clean(Join(elems, [SEP]))
  }

  function CommonPrefix(a: seq<string>, b: seq<string>): (n: nat)
    ensures n <= |a| && n <= |b| && a[..n] == b[..n]
    ensures n < |a| && n < |b| ==> a[n] != b[n]
  {
    if |a| == 0 || |b| == 0 || a[0] != b[0] then 0
    else
      var n := CommonPrefix(a[1..], b[1..]);
      assert a[..n + 1] == [a[0]] + a[1..][..n] && b[..n + 1] == [b[0]] + b[1..][..n];
      n + 1
  }

  /** filepath.Rel of two absolute paths. */
  function Rel(base: string, target: string): string
    requires IsAbs(base) && IsAbs(target)
  {
    var b, t := Components(base), Components(target);
    var n := CommonPrefix(b, t);
    if n == |b| && n == |t| then "." else Join(seq(|b| - n, i => "..") + t[n..], [SEP])
  }

  /** Parts that normalization leaves alone. */
  ghost predicate Plain(parts: seq<string>) {
    forall i :: 0 <= i < |parts| ==> parts[i] != "" && parts[i] != "." && parts[i] != ".." && SEP !in parts[i]
  }

  lemma {:induction false} NormalizeRooted(parts: seq<string>, done: seq<string>)
    requires Plain(done) && forall i :: 0 <= i < |parts| ==> SEP !in parts[i]
    ensures Plain(Normalize(true, parts, done))
    decreases |parts|
  {
    if |parts| > 0 {
      var part, rest := parts[0], parts[1..];
      if part == "" || part == "." {
        NormalizeRooted(rest, done);
      } else if part != ".." {
        NormalizeRooted(rest, done + [part]);
      } else if |done| > 0 {
        NormalizeRooted(rest, done[..|done| - 1]);
      } else {
        NormalizeRooted(rest, done);
      }
    }
  }

  lemma {:induction false} NormalizePlain(rooted: bool, parts: seq<string>, done: seq<string>)
    requires Plain(parts)
    ensures Normalize(rooted, parts, done) == done + parts
    decreases |parts|
  {
    if |parts| > 0 {
      NormalizePlain(rooted, parts[1..], done + [parts[0]]);
      assert done + [parts[0]] + parts[1..] == done + parts;
    }
  }

  lemma {:induction false} NormalizeAppend(rooted: bool, a: seq<string>, b: seq<string>, done: seq<string>)
    ensures Normalize(rooted, a + b, done) == Normalize(rooted, b, Normalize(rooted, a, done))
    decreases |a|
  {
    if |a| == 0 {
      assert a + b == b;
    } else {
      var part, rest := a[0], a[1..];
      assert (a + b)[0] == part && (a + b)[1..] == rest + b;
      if part == "" || part == "." {
        NormalizeAppend(rooted, rest, b, done);
      } else if part != ".." {
        NormalizeAppend(rooted, rest, b, done + [part]);
      } else if |done| > 0 && done[|done| - 1] != ".." {
        NormalizeAppend(rooted, rest, b, done[..|done| - 1]);
      } else if rooted {
        NormalizeAppend(rooted, rest, b, done);
      } else {
        NormalizeAppend(rooted, rest, b, done + [part]);
      }
    }
  }

  lemma ComponentsPlain(p: string)
    requires IsAbs(p)
    ensures Plain(Components(p))
  {
    SplitFree(p, SEP);
    NormalizeRooted(Split(p, SEP), []);
  }

  lemma SplitRooted(parts: seq<string>)
    requires Plain(parts)
    ensures Split(Rooted(parts), SEP) == [""] + if |parts| == 0 then [""] else parts
  {
    SplitAppend("", SEP, Join(parts, [SEP]));
    assert "" + [SEP] + Join(parts, [SEP]) == Rooted(parts);
    if |parts| > 0 {
      SplitJoin(parts, SEP);
    }
  }

  lemma ComponentsRooted(parts: seq<string>)
    requires Plain(parts)
    ensures IsAbs(Rooted(parts)) && Components(Rooted(parts)) == parts && Clean(Rooted(parts)) == Rooted(parts)
  {
    SplitRooted(parts);
    NormalizePlain(true, parts, []);
    if |parts| > 0 {
      assert ([""] + parts)[1..] == parts;
    } else {
      assert ([""] + [""])[1..] == [""] && Normalize(true, [""], []) == [];
    }
    assert [] + parts == parts;
  }

  /** Clean leaves what it produced alone, and changes no component. */
  lemma CleanIdempotent(p: string)
    requires IsAbs(p)
    ensures IsAbs(Clean(p)) && Clean(Clean(p)) == Clean(p) && Components(Clean(p)) == Components(p)
  {
    ComponentsPlain(p);
    ComponentsRooted(Components(p));
  }

  /** Below an absolute path, a relative one is normalized from where the first one led. */
  lemma {:induction false} ComponentsBelow(base: string, p: string)
    requires IsAbs(base)
    ensures IsAbs(base + [SEP] + p)
    ensures Components(base + [SEP] + p) == Normalize(true, Split(p, SEP), Components(base))
  {
    SplitAppend(base, SEP, p);
    NormalizeAppend(true, Split(base, SEP), Split(p, SEP), []);
  }

  lemma JoinTwo(base: string, p: string)
    requires base != ""
    ensures JoinPath([base, p]) == Clean(base + [SEP] + p)
  {
    assert [base, p][1..] == [p];
    assert Join([base, p], [SEP]) == base + [SEP] + p;
  }

  lemma DotDotHead(head: string, rest: string)
    requires SEP !in head
    ensures ".." + [SEP] <= head + [SEP] + rest <==> head == ".."
    ensures ".." <= head + [SEP] + rest <==> ".." <= head
  {
    var s := head + [SEP] + rest;
    assert s[|head|] == SEP;
    assert forall i :: 0 <= i < |head| ==> s[i] == head[i];
    if |head| >= 2 {
      assert s[..2] == head[..2];
    } else if |s| >= 2 {
      assert s[..2][|head|] == SEP;
    }
    if |head| > 2 {
      assert s[2] != SEP;
    }
  }

  lemma {:induction false} FirstOfJoin(parts: seq<string>)
    requires |parts| > 0 && forall i :: 0 <= i < |parts| ==> SEP !in parts[i]
    ensures var s := Join(parts, [SEP]);
            && ((s == ".." || ".." + [SEP] <= s) <==> parts[0] == "..")
            && (".." <= s <==> ".." <= parts[0])
  {
    if |parts| == 1 {
      assert |parts[0]| > 2 ==> parts[0][2] != SEP;
    } else {
      DotDotHead(parts[0], Join(parts[1..], [SEP]));
      SplitJoin(parts, SEP);
      SplitNoSep("..", SEP);
    }
  }

  // --- what ".." comes to, by counting ---

  /** A name leads one level down, ".." one up, and nothing or "." nowhere. */
  function Rise(part: string): int {
    if part == "" || part == "." then 0 else if part == ".." then -1 else 1
  }

  function Height(parts: seq<string>): int {
    if |parts| == 0 then 0 else Rise(parts[0]) + Height(parts[1..])
  }

  /** What follows never leads up to where this part was. */
  ghost predicate NotUndone(rest: seq<string>) {
    forall j :: 0 <= j <= |rest| ==> Height(rest[..j]) >= 0
  }

  /** The names that no later ".." undoes, in order. */
  ghost function Surviving(parts: seq<string>): seq<string> {
    if |parts| == 0 then []
    else (if Rise(parts[0]) == 1 && NotUndone(parts[1..]) then [parts[0]] else []) + Surviving(parts[1..])
  }

  /** How far the parts lead up from where they start. */
  function Deficit(parts: seq<string>): nat {
    if |parts| == 0 then 0
    else
      var d := Deficit(parts[1..]);
      if Rise(parts[0]) == 0 then d else if Rise(parts[0]) == -1 then d + 1 else if d > 0 then d - 1 else 0
  }

  lemma {:induction false} DeficitBound(parts: seq<string>, d: nat)
    ensures Deficit(parts) <= d <==> forall j :: 0 <= j <= |parts| ==> Height(parts[..j]) + d >= 0
  {
    assert Height(parts[..0]) == 0;
    if |parts| > 0 {
      var rest, v := parts[1..], Rise(parts[0]);
      forall j | 0 <= j <= |rest|
        ensures Height(parts[..j + 1]) == v + Height(rest[..j])
      {
        assert parts[..j + 1][1..] == rest[..j];
      }
      if d + v >= 0 {
        DeficitBound(rest, d + v);
        if Deficit(parts) <= d {
          forall j | 0 <= j <= |parts|
            ensures Height(parts[..j]) + d >= 0
          {
            if j > 0 {
              assert Height(rest[..j - 1]) >= -(d + v);
              assert Height(parts[..j - 1 + 1]) == v + Height(rest[..j - 1]);
            }
          }
        } else {
          var j :| 0 <= j <= |rest| && Height(rest[..j]) < -(d + v);
          assert Height(parts[..j + 1]) + d < 0;
        }
      } else {
        assert Height(rest[..0]) == 0;
        assert Height(parts[..0 + 1]) == v + Height(rest[..0]);
      }
    }
  }

  function Less(n: nat, d: nat): nat { if n < d then 0 else n - d }

  lemma Pushed(done: seq<string>, part: string, tail: seq<string>, d: nat)
    ensures (done + [part])[..Less(|done| + 1, d)] + tail
         == if d == 0 then done[..Less(|done|, 0)] + ([part] + tail) else done[..Less(|done|, d - 1)] + tail
  {
  }

  predicate NoUps(done: seq<string>) {
    forall i :: 0 <= i < |done| ==> done[i] != ".."
  }

  lemma NoUpsPushed(done: seq<string>, part: string)
    requires NoUps(done) && part != ".."
    ensures NoUps(done + [part])
  {
  }

  lemma NoUpsPopped(done: seq<string>)
    requires NoUps(done) && |done| > 0
    ensures NoUps(done[..|done| - 1]) && done[|done| - 1] != ".."
  {
  }

  lemma Popped(done: seq<string>, d: nat)
    requires |done| > 0
    ensures done[..|done| - 1][..Less(|done| - 1, d)] == done[..Less(|done|, d + 1)]
  {
  }

  lemma {:induction false} SurvivingStep(parts: seq<string>)
    requires |parts| > 0
    ensures var v, d, rest := Rise(parts[0]), Deficit(parts[1..]), Surviving(parts[1..]);
            && (v == 0 ==> Deficit(parts) == d && Surviving(parts) == rest)
            && (v == -1 ==> Deficit(parts) == d + 1 && Surviving(parts) == rest)
            && (v == 1 ==> Deficit(parts) == Less(d, 1) && Surviving(parts) == if d == 0 then [parts[0]] + rest else rest)
  {
    DeficitBound(parts[1..], 0);
    assert Deficit(parts[1..]) == 0 <==> NotUndone(parts[1..]);
    assert [] + Surviving(parts[1..]) == Surviving(parts[1..]);
  }

  /** What normalizing comes to: the names that survive, on what they leave of those before them. */
  function Joined(done: seq<string>, d: nat, names: seq<string>): seq<string> {
    done[..Less(|done|, d)] + names
  }

  lemma JoinedPushed(done: seq<string>, part: string, names: seq<string>, d: nat)
    ensures Joined(done + [part], d, names) == if d == 0 then Joined(done, 0, [part] + names) else Joined(done, d - 1, names)
  {
    Pushed(done, part, names, d);
  }

  lemma JoinedPopped(done: seq<string>, names: seq<string>, d: nat)
    requires |done| > 0
    ensures Joined(done[..|done| - 1], d, names) == Joined(done, d + 1, names)
  {
    Popped(done, d);
  }

  lemma {:induction false} NormalizeSurviving(parts: seq<string>, done: seq<string>)
    requires NoUps(done)
    ensures Normalize(true, parts, done) == Joined(done, Deficit(parts), Surviving(parts))
    decreases |parts|
  {
    if |parts| > 0 {
      var part, rest := parts[0], parts[1..];
      SurvivingStep(parts);
      if part == "" || part == "." {
        NormalizeSurviving(rest, done);
      } else if part != ".." {
        NoUpsPushed(done, part);
        NormalizeSurviving(rest, done + [part]);
        JoinedPushed(done, part, Surviving(rest), Deficit(rest));
      } else if |done| > 0 {
        NoUpsPopped(done);
        NormalizeSurviving(rest, done[..|done| - 1]);
        JoinedPopped(done, Surviving(rest), Deficit(rest));
      } else {
        NormalizeSurviving(rest, done);
      }
    }
  }

  /** In an absolute path exactly the names survive that no later ".." undoes. */
  lemma {:induction false} ComponentsSurviving(p: string)
    requires IsAbs(p)
    ensures Components(p) == Surviving(Split(p, SEP))
    ensures Clean(p) == Rooted(Surviving(Split(p, SEP)))
  {
    NormalizeSurviving(Split(p, SEP), []);
    assert [] + Surviving(Split(p, SEP)) == Surviving(Split(p, SEP));
  }

  lemma {:induction false} CleanBelow(p: string, tail: string, parts: seq<string>)
    requires IsAbs(p) && Split(tail, SEP) == parts
    ensures IsAbs(p + [SEP] + tail) && Clean(p + [SEP] + tail) == Rooted(Normalize(true, parts, Components(p)))
  {
    ComponentsBelow(p, tail);
  }

  /** A name and ".." after it cancel; "." and a trailing slash are nothing; there is nothing above the root. */
  lemma {:induction false} CleanLaws(p: string, name: string)
    requires IsAbs(p) && SEP !in name && name != "" && name != "." && name != ".."
    ensures Clean(p + "/" + (name + "/" + "..")) == Clean(p)
    ensures Clean(p + "/" + ".") == Clean(p) && Clean(p + "/" + "") == Clean(p)
    ensures Clean("/" + "..") == "/"
  {
    SplitNoSep(name, SEP);
    SplitNoSep("..", SEP);
    SplitNoSep(".", SEP);
    SplitNoSep("", SEP);
    SplitAppend(name, SEP, "..");
    assert "/" == [SEP] && [name] + [".."] == [name, ".."];
    ComponentsPlain(p);
    CleanBelow(p, name + "/" + "..", [name, ".."]);
    NormalizeUndone(name, Components(p));
    CleanBelow(p, ".", ["."]);
    CleanBelow(p, "", [""]);
    assert ["."][1..] == [] && [""][1..] == [];
    SplitAppend("", SEP, "..");
    assert "" + [SEP] + ".." == "/" + ".." && [""] + [".."] == ["", ".."] && ["", ".."][1..] == [".."] && [".."][1..] == [];
    assert Normalize(true, ["", ".."], []) == Normalize(true, [".."], []) == Normalize(true, [], []) == [];
  }

  lemma {:induction false} NormalizeUndone(name: string, done: seq<string>)
    requires name != "" && name != "." && name != ".."
    ensures Normalize(true, [name, ".."], done) == done
  {
    assert [name, ".."][1..] == [".."] && [".."][1..] == [];
    assert (done + [name])[..|done|] == done;
    assert Normalize(true, [".."], done + [name]) == Normalize(true, [], done);
  }
}

/** Which paths a client of the tunnel may read and write. */
module PathScope {
  import opened Basics
  import opened GoPath

  datatype Resolved = Ok(path: string) | MissingPath | Escapes

  function Absolute(base: string, p: string): string {
    if IsAbs(p) then p else JoinPath([base, p])
  }

  function ResolveUnder(base: string, p: string): Resolved
    requires IsAbs(base)
  {
    if p == "" then MissingPath
    else
      var abs := Absolute(base, p);
      assert IsAbs(abs) by { AbsoluteIsAbs(base, p); }
      var cleaned := Clean(abs);
      assert IsAbs(cleaned);
      var rel := Rel(base, cleaned);
      if rel == ".." || ".." + [SEP] <= rel then Escapes else Ok(cleaned)
  }

  lemma AbsoluteIsAbs(base: string, p: string)
    requires IsAbs(base)
    ensures IsAbs(Absolute(base, p))
  {
    JoinTwo(base, p);
  }

  /** Where a request path leads: what survives of the names in it, below those of the base if it is relative. */
  ghost function Destination(base: string, p: string): seq<string> {
    Surviving((if IsAbs(p) then [] else Split(base, SEP)) + Split(p, SEP))
  }

  /** Where a path that stands for a directory is. */
  ghost function Place(p: string): seq<string> {
    Surviving(Split(p, SEP))
  }

  lemma AbsoluteLeadsTo(base: string, p: string)
    requires IsAbs(base)
    ensures IsAbs(Absolute(base, p)) && Components(Absolute(base, p)) == Destination(base, p)
  {
    if IsAbs(p) {
      ComponentsSurviving(p);
      assert [] + Split(p, SEP) == Split(p, SEP);
    } else {
      JoinTwo(base, p);
      SplitAppend(base, SEP, p);
      ComponentsSurviving(base + [SEP] + p);
      CleanIdempotent(base + [SEP] + p);
    }
  }

  /** Rel steps out of the base exactly when the base is not a prefix of the target. */
  lemma RelEscapes(base: string, target: string)
    requires IsAbs(base) && IsAbs(target)
    ensures var rel := Rel(base, target);
            (rel == ".." || ".." + [SEP] <= rel) <==> !(Components(base) <= Components(target))
  {
    var b, t := Components(base), Components(target);
    ComponentsPlain(base);
    ComponentsPlain(target);
    var n := CommonPrefix(b, t);
    if n < |b| || n < |t| {
      var parts := seq(|b| - n, i => "..") + t[n..];
      FirstOfJoin(parts);
      if n == |b| {
        assert parts[0] == t[n];
      } else {
        assert parts[0] == "..";
        assert b[n] == b[..n + 1][n];
      }
    }
  }

  /**
   * A path is accepted exactly when the base's place is a prefix of where it leads; the result is that place,
   * written out, and cleaning it again changes nothing.
   */
  lemma ScopeExact(base: string, p: string)
    requires IsAbs(base)
    ensures ResolveUnder(base, p).MissingPath? <==> p == ""
    ensures ResolveUnder(base, p).Ok? <==> p != "" && Place(base) <= Destination(base, p)
    ensures ResolveUnder(base, p).Ok? ==> ResolveUnder(base, p).path == Rooted(Destination(base, p))
    ensures IsAbs(Rooted(Destination(base, p))) && Clean(Rooted(Destination(base, p))) == Rooted(Destination(base, p))
    ensures Place(Rooted(Destination(base, p))) == Destination(base, p)
  {
    var abs := Absolute(base, p);
    AbsoluteLeadsTo(base, p);
    CleanIdempotent(abs);
    RelEscapes(base, Clean(abs));
    ComponentsSurviving(base);
    ComponentsPlain(abs);
    ComponentsRooted(Components(abs));
    ComponentsSurviving(Rooted(Components(abs)));
  }

  /** Going up from a base, and into another directory beside it, is refused. */
  lemma {:induction false} UpEscapes(parts: seq<string>, name: string)
    requires Plain(parts) && |parts| > 0 && Plain([name]) && name != parts[|parts| - 1]
    ensures ResolveUnder(Rooted(parts), "..") == Escapes
    ensures ResolveUnder(Rooted(parts), ".." + "/" + name) == Escapes
  {
    var base := Rooted(parts);
    ComponentsRooted(parts);
    ComponentsSurviving(base);
    SplitNoSep("..", SEP);
    assert SEP !in [name][0];
    SplitNoSep(name, SEP);
    SplitAppend("..", SEP, name);
    assert "/" == [SEP] && [".."] + [name] == ["..", name];
    GoUp(parts, name);
    Below(base, "..");
    ScopeExact(base, "..");
    Below(base, ".." + "/" + name);
    ScopeExact(base, ".." + "/" + name);
  }

  lemma {:induction false} GoUp(parts: seq<string>, name: string)
    requires Plain(parts) && |parts| > 0 && Plain([name]) && name != parts[|parts| - 1]
    ensures !(parts <= Normalize(true, [".."], parts)) && !(parts <= Normalize(true, ["..", name], parts))
  {
    var up := parts[..|parts| - 1];
    assert [name][0] == name && [".."][1..] == [] && ["..", name][1..] == [name] && [name][1..] == [];
    assert Normalize(true, [".."], parts) == Normalize(true, [], up) == up;
    assert Normalize(true, ["..", name], parts) == Normalize(true, [name], up) == Normalize(true, [], up + [name]) == up + [name];
    assert (up + [name])[|parts| - 1] == name;
  }

  lemma {:induction false} Below(base: string, p: string)
    requires IsAbs(base) && !IsAbs(p)
    ensures Destination(base, p) == Normalize(true, Split(p, SEP), Components(base))
  {
    ComponentsBelow(base, p);
    SplitAppend(base, SEP, p);
    ComponentsSurviving(base + [SEP] + p);
  }

  ghost predicate Accepts(root: string, p: string) {
    p != "" && Place(root) <= Destination(root, p)
  }

  /** resolveWrite: the first write root that accepts the path. */
  method ResolveWrite(roots: seq<string>, p: string) returns (r: Option<string>)
    requires forall i :: 0 <= i < |roots| ==> IsAbs(roots[i])
    ensures r == None <==> forall i :: 0 <= i < |roots| ==> !Accepts(roots[i], p)
    ensures r.Some? ==> IsAbs(r.value) && Clean(r.value) == r.value
    ensures r.Some? ==> exists i :: && 0 <= i < |roots| && Accepts(roots[i], p)
                                    && r.value == Rooted(Destination(roots[i], p)) && Place(r.value) == Destination(roots[i], p)
                                    && forall j :: 0 <= j < i ==> !Accepts(roots[j], p)
  {
    var i := 0;
    while i < |roots|
      invariant i <= |roots|
      invariant forall j :: 0 <= j < i ==> !Accepts(roots[j], p)
    {
      var abs := ResolveIn(roots[i], p);
      if abs.Ok? {
        return Some(abs.path);
      }
      i := i + 1;
    }
    r := None;
  }

  method ResolveIn(root: string, p: string) returns (r: Resolved)
    requires IsAbs(root)
    ensures r == ResolveUnder(root, p) && (r.Ok? <==> Accepts(root, p))
    ensures r.Ok? ==> IsAbs(r.path) && Clean(r.path) == r.path
    ensures r.Ok? ==> r.path == Rooted(Destination(root, p)) && Place(r.path) == Destination(root, p)
  {
    ScopeExact(root, p);
    r := ResolveUnder(root, p);
  }

  // --- tar extraction ---

  datatype Entry = Target(path: string) | Skipped | BadName

  /** The path computation for one archive entry. */
  function TarEntry(dest: string, name: string, strip: int): Entry {
    var cleaned := Clean([SEP] + name);
    var parts := Split(if IsAbs(cleaned) then cleaned[1..] else cleaned, SEP);
    var kept := if strip > 0 && |parts| > strip then parts[strip..] else parts;
    var rel := JoinPath(kept);
    if rel == "." then Skipped
    else if ".." <= rel then BadName
    else Target(JoinPath([dest, rel]))
  }

  /** The components of an entry that survive the strip; an entry with no more than that many keeps them all. */
  ghost function Kept(name: string, strip: int): seq<string> {
    if strip > 0 && |Place(name)| > strip then Place(name)[strip..] else Place(name)
  }

  lemma {:induction false} EntryComponents(name: string)
    ensures Components([SEP] + name) == Place(name)
  {
    SplitAppend("", SEP, name);
    assert "" + [SEP] + name == [SEP] + name;
    assert ([""] + Split(name, SEP))[1..] == Split(name, SEP);
    ComponentsSurviving([SEP] + name);
    assert [] + Place(name) == Place(name);
  }

  lemma {:induction false} JoinPathPlain(parts: seq<string>)
    requires Plain(parts) && |parts| > 0
    ensures JoinPath(parts) == Join(parts, [SEP]) && Components(Join(parts, [SEP])) == parts
  {
    var s := Join(parts, [SEP]);
    SplitJoin(parts, SEP);
    assert s[0] == parts[0][0];
    NormalizePlain(false, parts, []);
    assert [] + parts == parts;
  }

  /**
   * Whatever an entry is called and however much is stripped, it lands at dest followed by the names that
   * survive in it, without the first ones if it has more than are stripped; so never outside dest. The final
   * check refuses exactly the entries whose first kept name begins with two dots, and the check for "."
   * never applies.
   */
  lemma TarTarget(dest: string, name: string, strip: int)
    requires IsAbs(dest)
    ensures var entry := TarEntry(dest, name, strip);
            var kept := if strip > 0 && |Place(name)| > strip then Place(name)[strip..] else Place(name);
            && entry != Skipped
            && (entry == BadName <==> |kept| > 0 && ".." <= kept[0])
            && (entry.Target? ==> entry.path == Rooted(Place(dest) + kept) && Place(entry.path) == Place(dest) + kept)
  {
    var parts, kept := Components([SEP] + name), Kept(name, strip);
    EntryComponents(name);
    ComponentsPlain([SEP] + name);
    assert Rooted(parts)[1..] == Join(parts, [SEP]);
    ComponentsSurviving(dest);
    if |parts| == 0 {
      assert Split("", SEP) == [""];
      assert JoinPath([""]) == JoinPath([]) == "";
      DestBelow(dest, "", []);
    } else {
      SplitJoin(parts, SEP);
      JoinPathPlain(kept);
      FirstOfJoin(kept);
      SplitJoin(kept, SEP);
      RelIsNotDot(kept);
      DestBelow(dest, Join(kept, [SEP]), kept);
    }
  }

  lemma {:induction false} RelIsNotDot(kept: seq<string>)
    requires Plain(kept) && |kept| > 0
    ensures Join(kept, [SEP]) != "."
  {
    SplitJoin(kept, SEP);
    SplitNoSep(".", SEP);
  }

  lemma {:induction false} DestBelow(dest: string, rel: string, kept: seq<string>)
    requires IsAbs(dest) && Plain(kept)
    requires Split(rel, SEP) == kept || (kept == [] && rel == "")
    ensures JoinPath([dest, rel]) == Rooted(Place(dest) + kept) && Place(Rooted(Place(dest) + kept)) == Place(dest) + kept
  {
    JoinTwo(dest, rel);
    ComponentsBelow(dest, rel);
    ComponentsPlain(dest);
    ComponentsSurviving(dest);
    if Split(rel, SEP) == kept {
      NormalizePlain(true, kept, Components(dest));
    } else {
      assert Split("", SEP) == [""] && [""][1..] == [];
      assert Components(dest) + kept == Components(dest);
    }
    ComponentsRooted(Components(dest) + kept);
    ComponentsSurviving(Rooted(Components(dest) + kept));
  }

  ghost predicate Refused(name: string, strip: int) {
    |Kept(name, strip)| > 0 && ".." <= Kept(name, strip)[0]
  }

  ghost predicate Placed(dest: string, name: string, strip: int, target: string) {
    !Refused(name, strip) && target == Rooted(Place(dest) + Kept(name, strip)) && Place(target) == Place(dest) + Kept(name, strip)
  }

  lemma EntryPlaced(dest: string, name: string, strip: int)
    requires IsAbs(dest)
    ensures TarEntry(dest, name, strip) == BadName <==> Refused(name, strip)
    ensures TarEntry(dest, name, strip).Target? ==> Placed(dest, name, strip, TarEntry(dest, name, strip).path)
    ensures TarEntry(dest, name, strip) != Skipped
  {
    TarTarget(dest, name, strip);
  }

  ghost predicate AllPlaced(dest: string, strip: int, names: seq<string>, targets: seq<string>) {
    |targets| <= |names| && forall i :: 0 <= i < |targets| ==> Placed(dest, names[i], strip, targets[i])
  }

  lemma PlacedSnoc(dest: string, strip: int, names: seq<string>, targets: seq<string>, target: string)
    requires AllPlaced(dest, strip, names, targets) && |targets| < |names| && Placed(dest, names[|targets|], strip, target)
    ensures AllPlaced(dest, strip, names, targets + [target])
  {
  }

  method PlaceEntry(dest: string, name: string, strip: int) returns (entry: Entry)
    requires IsAbs(dest)
    ensures entry == TarEntry(dest, name, strip)
    ensures if Refused(name, strip) then entry == BadName else entry.Target? && Placed(dest, name, strip, entry.path)
  {
    EntryPlaced(dest, name, strip);
    entry := TarEntry(dest, name, strip);
  }

  /** doExtract's loop over the archive: it stops at the first refused name, having written only below dest. */
  method Extract(dest: string, strip: int, names: seq<string>) returns (targets: seq<string>, ok: bool)
    requires IsAbs(dest)
    ensures |targets| <= |names|
    ensures forall i :: 0 <= i < |targets| ==> Placed(dest, names[i], strip, targets[i])
    ensures if ok then |targets| == |names| else |targets| < |names| && Refused(names[|targets|], strip)
  {
    targets := [];
    var i := 0;
    while i < |names|
      invariant i == |targets| <= |names|
      invariant AllPlaced(dest, strip, names, targets)
    {
      var entry := PlaceEntry(dest, names[i], strip);
      if entry == BadName {
        return targets, false;
      }
      PlacedSnoc(dest, strip, names, targets, entry.path);
      targets := targets + [entry.path];
      i := i + 1;
    }
    ok := true;
  }

  datatype Status = StOk | StBadReq | StDenied

  /** Where an entry of an archive for this destination lands: below the write root that accepted it. */
  ghost predicate LandsBelow(root: string, destArg: string, name: string, strip: int, target: string) {
    && Accepts(root, destArg) && Place(root) <= Place(target)
    && target == Rooted(Destination(root, destArg) + Kept(name, strip))
  }

  /** doExtract: nothing is ever written outside the write roots. */
  method DoExtract(roots: seq<string>, destArg: string, strip: int, names: seq<string>)
    returns (status: Status, targets: seq<string>)
    requires forall i :: 0 <= i < |roots| ==> IsAbs(roots[i])
    ensures |targets| <= |names|
    ensures forall i :: 0 <= i < |targets| ==>
              exists r :: 0 <= r < |roots| && LandsBelow(roots[r], destArg, names[i], strip, targets[i])
    ensures status == StDenied <==> destArg != "" && forall i :: 0 <= i < |roots| ==> !Accepts(roots[i], destArg)
    ensures status == StOk <==>
              (exists i :: 0 <= i < |roots| && Accepts(roots[i], destArg)) && forall i :: 0 <= i < |names| ==> !Refused(names[i], strip)
    ensures status == StOk ==> |targets| == |names|
  {
    targets := [];
    if destArg == "" { return StBadReq, []; }
    var dest := ResolveWrite(roots, destArg);
    if dest == None { return StDenied, []; }
    var ok;
    targets, ok := Extract(dest.value, strip, names);
    ghost var r :| 0 <= r < |roots| && Accepts(roots[r], destArg) && Place(dest.value) == Destination(roots[r], destArg);
    assert Place(roots[r]) <= Place(dest.value);
    forall i | 0 <= i < |targets|
      ensures LandsBelow(roots[r], destArg, names[i], strip, targets[i])
    {
      assert Placed(dest.value, names[i], strip, targets[i]);
    }
    status := if ok then StOk else StBadReq;
  }
}
