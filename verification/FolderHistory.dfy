/** The recent-folder list of each remote: most recent first, no duplicates, at most twenty. */
module FolderHistory {

  const CAP: nat := 20

  datatype Op = Add(remote: string, folder: string) | Remove(remote: string, folder: string)

  function Without(list: seq<string>, folder: string): (r: seq<string>)
    ensures folder !in r && |r| <= |list|
    ensures |r| == |list| ==> r == list
  {
    if |list| == 0 then []
    else if list[0] == folder then Without(list[1..], folder)
    else [list[0]] + Without(list[1..], folder)
  }

  function Take(list: seq<string>, n: nat): seq<string> {
    if |list| <= n then list else list[..n]
  }

  /** The list the source keeps for one remote after these operations. */
  function Stored(history: seq<Op>, remote: string): seq<string>
    decreases |history|
  {
    if |history| == 0 then []
    else
      var before, op := Stored(history[..|history| - 1], remote), history[|history| - 1];
      if op.remote != remote then before
      else if op.Add? then Take([op.folder] + Without(before, op.folder), CAP)
      else Without(before, op.folder)
  }

  /** The same without a bound: the move-to-front list. */
  function Recent(history: seq<Op>, remote: string): seq<string>
    decreases |history|
  {
    if |history| == 0 then []
    else
      var before, op := Recent(history[..|history| - 1], remote), history[|history| - 1];
      if op.remote != remote then before
      else if op.Add? then [op.folder] + Without(before, op.folder)
      else Without(before, op.folder)
  }

  /** When a folder was last added, counted from one; zero if it was never added, or removed since. */
  function AddedAt(history: seq<Op>, remote: string, folder: string): nat
    decreases |history|
  {
    if |history| == 0 then 0
    else
      var op := history[|history| - 1];
      if op == Add(remote, folder) then |history|
      else if op == Remove(remote, folder) then 0
      else AddedAt(history[..|history| - 1], remote, folder)
  }

  ghost predicate Distinct(list: seq<string>) {
    forall i, j :: 0 <= i < j < |list| ==> list[i] != list[j]
  }

  lemma {:induction false} WithoutMembers(list: seq<string>, folder: string, f: string)
    ensures f in Without(list, folder) <==> f in list && f != folder
    ensures Distinct(list) ==> Distinct(Without(list, folder))
  {
    if |list| > 0 {
      WithoutMembers(list[1..], folder, f);
      assert list == [list[0]] + list[1..];
      if Distinct(list) && list[0] != folder {
        forall i | 0 <= i < |Without(list[1..], folder)|
          ensures Without(list[1..], folder)[i] != list[0]
        {
          WithoutMembers(list[1..], folder, Without(list[1..], folder)[i]);
        }
      }
    }
  }

  lemma {:induction false} WithoutPrefix(a: seq<string>, b: seq<string>, folder: string)
    requires a <= b
    ensures Without(a, folder) <= Without(b, folder)
  {
    if |a| > 0 {
      assert a[0] == b[0] && a[1..] <= b[1..];
      WithoutPrefix(a[1..], b[1..], folder);
    }
  }

  lemma {:induction false} WithoutAbsent(list: seq<string>, folder: string)
    requires folder !in list
    ensures Without(list, folder) == list
  {
    if |list| > 0 {
      WithoutAbsent(list[1..], folder);
      assert list == [list[0]] + list[1..];
    }
  }

  lemma TakeCons(first: string, rest: seq<string>, n: nat)
    ensures Take([first] + rest, n + 1) == [first] + Take(rest, n)
  {
  }

  lemma {:induction false} TakeWithout(list: seq<string>, n: nat, folder: string)
    requires Distinct(list)
    ensures Take(Without(Take(list, n + 1), folder), n) == Take(Without(list, folder), n)
  {
    if |list| > n + 1 {
      if list[0] == folder {
        assert folder !in list[1..];
        WithoutAbsent(list[1..], folder);
        assert list[..n + 1][1..] == list[1..][..n];
        WithoutAbsent(list[1..][..n], folder);
      } else if n > 0 {
        TakeWithout(list[1..], n - 1, folder);
        assert list[..n + 1][1..] == list[1..][..n];
        TakeCons(list[0], Without(list[1..][..n], folder), n - 1);
        TakeCons(list[0], Without(list[1..], folder), n - 1);
      }
    }
  }

  ghost predicate LatestFirst(list: seq<string>, history: seq<Op>, remote: string) {
    forall i, j :: 0 <= i < j < |list| ==> AddedAt(history, remote, list[i]) > AddedAt(history, remote, list[j])
  }

  lemma {:induction false} RecentMembers(history: seq<Op>, remote: string, f: string)
    ensures f in Recent(history, remote) <==> AddedAt(history, remote, f) > 0
    ensures AddedAt(history, remote, f) <= |history|
    decreases |history|
  {
    if |history| > 0 {
      var front, op := history[..|history| - 1], history[|history| - 1];
      RecentMembers(front, remote, f);
      WithoutMembers(Recent(front, remote), op.folder, f);
    }
  }

  lemma {:induction false} RecentOrder(history: seq<Op>, remote: string)
    ensures LatestFirst(Recent(history, remote), history, remote)
    decreases |history|
  {
    if |history| > 0 {
      var front, op := history[..|history| - 1], history[|history| - 1];
      var before := Recent(front, remote);
      RecentOrder(front, remote);
      assert history == front + [op];
      if op.remote == remote {
        var rest := Without(before, op.folder);
        WithoutKeepsOrder(before, op.folder, front, remote);
        Untouched(front, op, remote, rest);
        forall f | f in rest
          ensures AddedAt(history, remote, f) < |history|
        {
          RecentMembers(front, remote, f);
        }
      } else {
        Untouched(front, op, remote, before);
      }
    }
  }

  /** Recent really is recency order: it lists the folders added and not removed since, latest first. */
  lemma {:induction false} RecentIsByRecency(history: seq<Op>, remote: string)
    ensures forall f :: f in Recent(history, remote) <==> AddedAt(history, remote, f) > 0
    ensures LatestFirst(Recent(history, remote), history, remote)
  {
    forall f
      ensures f in Recent(history, remote) <==> AddedAt(history, remote, f) > 0
    {
      RecentMembers(history, remote, f);
    }
    RecentOrder(history, remote);
  }

  lemma {:induction false} Untouched(front: seq<Op>, op: Op, remote: string, list: seq<string>)
    requires op.remote == remote ==> op.folder !in list
    ensures forall f :: f in list ==> AddedAt(front + [op], remote, f) == AddedAt(front, remote, f)
    ensures LatestFirst(list, front, remote) ==> LatestFirst(list, front + [op], remote)
  {
    assert (front + [op])[..|front|] == front;
  }

  lemma {:induction false} WithoutKeepsOrder(list: seq<string>, folder: string, history: seq<Op>, remote: string)
    requires LatestFirst(list, history, remote)
    ensures LatestFirst(Without(list, folder), history, remote)
  {
    if |list| > 0 {
      WithoutKeepsOrder(list[1..], folder, history, remote);
      var rest := Without(list[1..], folder);
      forall j | 0 <= j < |rest|
        ensures AddedAt(history, remote, list[0]) > AddedAt(history, remote, rest[j])
      {
        WithoutMembers(list[1..], folder, rest[j]);
      }
    }
  }

  /**
   * For every history: no duplicates, at most twenty, and a prefix of the unbounded list; if nothing was
   * ever removed, exactly its first twenty.
   */
  lemma {:induction false} StoredRefinesRecent(history: seq<Op>, remote: string)
    ensures Distinct(Recent(history, remote)) && Distinct(Stored(history, remote))
    ensures |Stored(history, remote)| <= CAP
    ensures Stored(history, remote) <= Recent(history, remote)
    ensures (forall i :: 0 <= i < |history| ==> history[i].Add?) ==>
              Stored(history, remote) == Take(Recent(history, remote), CAP)
    decreases |history|
  {
    if |history| > 0 {
      var front, op := history[..|history| - 1], history[|history| - 1];
      StoredRefinesRecent(front, remote);
      if op.remote == remote {
        var stored, recent := Stored(front, remote), Recent(front, remote);
        WithoutMembers(recent, op.folder, "");
        WithoutMembers(stored, op.folder, "");
        WithoutPrefix(stored, recent, op.folder);
        if op.Add? {
          var bounded, unbounded := [op.folder] + Without(stored, op.folder), [op.folder] + Without(recent, op.folder);
          assert bounded <= unbounded;
          if stored == Take(recent, CAP) {
            TakeWithout(recent, CAP - 1, op.folder);
            assert Take(bounded, CAP) == [op.folder] + Take(Without(stored, op.folder), CAP - 1);
            assert Take(unbounded, CAP) == [op.folder] + Take(Without(recent, op.folder), CAP - 1);
          }
        }
      }
    }
  }

  /** Leaving out a folder that occurs once closes the gap. */
  lemma {:induction false} WithoutAt(list: seq<string>, k: nat)
    requires Distinct(list) && k < |list|
    ensures Without(list, list[k]) == list[..k] + list[k + 1..]
  {
    if k == 0 {
      WithoutAbsent(list[1..], list[0]);
    } else {
      assert list[1..][..k - 1] == list[1..k] && list[1..][k..] == list[k + 1..];
      WithoutAt(list[1..], k - 1);
    }
  }

  /** A removal takes out that folder, and of that remote, and nothing else. */
  lemma {:induction false} StoredAfterRemove(history: seq<Op>, remote: string, folder: string)
    ensures var before, after := Stored(history, remote), Stored(history + [Remove(remote, folder)], remote);
            && (folder !in before ==> after == before)
            && forall k: nat :: k < |before| && before[k] == folder ==> after == before[..k] + before[k + 1..]
    ensures forall other :: other != remote ==> Stored(history + [Remove(remote, folder)], other) == Stored(history, other)
  {
    var more := history + [Remove(remote, folder)];
    assert more[..|more| - 1] == history;
    var before := Stored(history, remote);
    StoredRefinesRecent(history, remote);
    if folder !in before {
      WithoutAbsent(before, folder);
    }
    forall k: nat | k < |before| && before[k] == folder
      ensures Without(before, folder) == before[..k] + before[k + 1..]
    {
      WithoutAt(before, k);
    }
  }

  /** An addition puts the folder in front, from where it was or new; the twenty-first then goes. */
  lemma {:induction false} StoredAfterAdd(history: seq<Op>, remote: string, folder: string)
    ensures var before, after := Stored(history, remote), Stored(history + [Add(remote, folder)], remote);
            && (folder !in before ==> after == [folder] + before[..if |before| < 20 then |before| else 19])
            && forall k: nat :: k < |before| && before[k] == folder ==> after == [folder] + before[..k] + before[k + 1..]
    ensures forall other :: other != remote ==> Stored(history + [Add(remote, folder)], other) == Stored(history, other)
  {
    var more := history + [Add(remote, folder)];
    assert more[..|more| - 1] == history;
    var before := Stored(history, remote);
    StoredRefinesRecent(history, remote);
    if folder !in before {
      WithoutAbsent(before, folder);
    }
    forall k: nat | k < |before| && before[k] == folder
      ensures Without(before, folder) == before[..k] + before[k + 1..]
    {
      WithoutAt(before, k);
    }
  }

  ghost predicate AmongLatest(history: seq<Op>, remote: string, folder: string, t: nat)
    requires t <= |history|
  {
    folder in Take(Recent(history[..t], remote), 20)
  }

  /** At every moment since its last addition the folder was among the twenty latest. */
  ghost predicate AlwaysAmongLatest(history: seq<Op>, remote: string, folder: string) {
    forall t: nat :: AddedAt(history, remote, folder) <= t <= |history| ==> AmongLatest(history, remote, folder, t)
  }

  lemma {:induction false} AlwaysSnoc(front: seq<Op>, op: Op, remote: string, folder: string)
    requires AddedAt(front + [op], remote, folder) == AddedAt(front, remote, folder) <= |front|
    ensures AlwaysAmongLatest(front + [op], remote, folder) <==>
              AlwaysAmongLatest(front, remote, folder) && AmongLatest(front + [op], remote, folder, |front| + 1)
  {
    var h := front + [op];
    assert forall t: nat :: t <= |front| ==> h[..t] == front[..t];
    assert forall t: nat :: t <= |front| ==> (AmongLatest(h, remote, folder, t) <==> AmongLatest(front, remote, folder, t));
  }

  /** Of a list without duplicates a prefix and its bound agree on what is near the front. */
  lemma PrefixTake(a: seq<string>, b: seq<string>, f: string, n: nat)
    requires a <= b && Distinct(b)
    ensures f in Take(a, n) <==> f in a && f in Take(b, n)
  {
    if f in a && f in Take(b, n) {
      var i :| 0 <= i < |a| && a[i] == f;
      var j :| 0 <= j < |Take(b, n)| && Take(b, n)[j] == f;
      assert b[i] == b[j];
      assert Take(a, n)[i] == f;
    }
  }

  lemma {:induction false} StoredStep(front: seq<Op>, op: Op, folder: string)
    ensures op != Add(op.remote, folder) ==>
              (folder in Stored(front + [op], op.remote) <==>
                 && folder in Stored(front, op.remote) && op != Remove(op.remote, folder)
                 && folder in Take(Recent(front + [op], op.remote), 20))
  {
    var h, stored, recent := front + [op], Stored(front, op.remote), Recent(front, op.remote);
    assert h[..|front|] == front;
    StoredRefinesRecent(front, op.remote);
    StoredRefinesRecent(h, op.remote);
    WithoutPrefix(stored, recent, op.folder);
    WithoutMembers(stored, op.folder, folder);
    WithoutMembers(recent, op.folder, folder);
    if op.Add? {
      PrefixTake([op.folder] + Without(stored, op.folder), [op.folder] + Without(recent, op.folder), folder, CAP);
    } else {
      PrefixTake(Without(stored, op.folder), Without(recent, op.folder), folder, CAP);
    }
  }

  /**
   * What is stored, with removals too: a folder that was added and not removed since, unless at some moment
   * since it was not among the twenty latest; being a prefix of the unbounded list fixes the order.
   */
  lemma {:induction false} StoredExactly(history: seq<Op>, remote: string, folder: string)
    ensures folder in Stored(history, remote) <==>
              AddedAt(history, remote, folder) > 0 && AlwaysAmongLatest(history, remote, folder)
    decreases |history|
  {
    if |history| > 0 {
      var front, op := history[..|history| - 1], history[|history| - 1];
      assert history == front + [op];
      StoredExactly(front, remote, folder);
      RecentMembers(front, remote, folder);
      StoredRefinesRecent(history, remote);
      if op == Add(remote, folder) {
        assert history[..|history|] == history;
        assert Take(Recent(history, remote), CAP)[0] == folder && Stored(history, remote)[0] == folder;
        assert AmongLatest(history, remote, folder, |history|);
      } else if op == Remove(remote, folder) {
        StoredStep(front, op, folder);
      } else {
        AlwaysSnoc(front, op, remote, folder);
        assert history[..|history|] == history;
        if op.remote == remote {
          StoredStep(front, op, folder);
        } else {
          OtherRemote(front, op, remote, folder);
        }
      }
    }
  }

  /** Another remote's operation leaves this one's lists as they were. */
  lemma {:induction false} OtherRemote(front: seq<Op>, op: Op, remote: string, folder: string)
    requires op.remote != remote
    ensures Stored(front + [op], remote) == Stored(front, remote)
    ensures AlwaysAmongLatest(front, remote, folder) && AddedAt(front, remote, folder) <= |front| ==>
              AmongLatest(front + [op], remote, folder, |front| + 1)
  {
    var h := front + [op];
    assert h[..|front|] == front && h[..|front| + 1] == h;
    if AlwaysAmongLatest(front, remote, folder) && AddedAt(front, remote, folder) <= |front| {
      assert AmongLatest(front, remote, folder, |front|);
      assert front[..|front|] == front;
    }
  }

  function Adds(folders: seq<(string, string)>): seq<Op> {
    seq(|folders|, i requires 0 <= i < |folders| => Add(folders[i].0, folders[i].1))
  }

  class FolderHistoryManager {
    var data: map<string, seq<string>>
    ghost var history: seq<Op>  // every folder added or removed so far

    ghost predicate Valid()
      reads this
    {
      && (forall remote :: remote in data ==> data[remote] == Stored(history, remote) && data[remote] != [])
      && (forall remote :: remote !in data ==> Stored(history, remote) == [])
    }

    constructor ()
      ensures Valid() && history == []
    {
      data, history := map[], [];
    }

    method AddFolders(folders: seq<(string, string)>)
      requires Valid()
      modifies this
      ensures Valid() && |history| == |old(history)| + |folders| && history[..|old(history)|] == old(history)
      ensures forall i: nat :: i < |folders| ==> history[|old(history)| + i] == Add(folders[i].0, folders[i].1)
    {
      var i := 0;
      while i < |folders|
        invariant i <= |folders| && Valid()
        invariant history == old(history) + Adds(folders)[..i]
      {
        var (remote, folder) := folders[i];
        var list := if remote in data then data[remote] else [];
        list := Without(list, folder);
        list := [folder] + list;
        data := data[remote := Take(list, CAP)];
        ghost var before := history;
        history := history + [Add(remote, folder)];
        assert history[..|history| - 1] == before;
        assert Adds(folders)[..i + 1] == Adds(folders)[..i] + [Add(remote, folder)];
        i := i + 1;
      }
      assert Adds(folders)[..i] == Adds(folders);
    }

    /** True if anything was deleted; a remote whose list becomes empty is forgotten. */
    method RemoveFolder(remote: string, folder: string) returns (removed: bool)
      requires Valid()
      modifies this
      ensures Valid() && history == old(history) + [Remove(remote, folder)]
      ensures removed <==> remote in old(data) && folder in old(data)[remote]
      ensures !removed ==> data == old(data)
      ensures removed ==> forall k: nat :: k < |old(data)[remote]| && old(data)[remote][k] == folder ==>
                var rest := old(data)[remote][..k] + old(data)[remote][k + 1..];
                data == if rest == [] then old(data) - {remote} else old(data)[remote := rest]
    {
      StoredAfterRemove(history, remote, folder);
      ghost var before := history;
      history := history + [Remove(remote, folder)];
      assert history[..|history| - 1] == before;
      if remote !in data { return false; }
      var list := data[remote];
      var next := Without(list, folder);
      if |next| == |list| {
        return false;
      }
      if folder !in list {
        WithoutAbsent(list, folder);
      }
      if next == [] {
        data := data - {remote};
      } else {
        data := data[remote := next];
      }
      removed := true;
    }

    method GetFolders(remote: string) returns (list: seq<string>)
      requires Valid()
      ensures list == Stored(history, remote) && list == if remote in data then data[remote] else []
    {
      list := if remote in data then data[remote] else [];
    }
  }
}
