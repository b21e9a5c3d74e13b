/** Pruning the download cache: oldest entries go first, until the rest fits under the cap. */
module CachePrune {

  const MAX_CACHE_BYTES: nat := 2 * 1024 * 1024 * 1024

  datatype Entry = Entry(key: string, time: int, size: nat)

  function Total(list: seq<Entry>): nat {
    if |list| == 0 then 0 else list[0].size + Total(list[1..])
  }

  lemma {:induction false} TotalSnoc(list: seq<Entry>, e: Entry)
    ensures Total(list + [e]) == Total(list) + e.size
  {
    if |list| == 0 {
      assert list + [e] == [e];
    } else {
      assert (list + [e])[1..] == list[1..] + [e];
      TotalSnoc(list[1..], e);
    }
  }

  /** Put an entry in front of those that are not older. */
  function Insert(e: Entry, list: seq<Entry>): seq<Entry> {
    if |list| == 0 || e.time <= list[0].time then [e] + list else [list[0]] + Insert(e, list[1..])
  }

  /** list.sort by time: JavaScript's sort is stable. */
  function SortByTime(list: seq<Entry>): seq<Entry> {
    if |list| == 0 then [] else Insert(list[0], SortByTime(list[1..]))
  }

  ghost predicate Sorted(list: seq<Entry>) {
    forall i, j :: 0 <= i < j < |list| ==> list[i].time <= list[j].time
  }

  function AtTime(list: seq<Entry>, t: int): seq<Entry> {
    if |list| == 0 then [] else (if list[0].time == t then [list[0]] else []) + AtTime(list[1..], t)
  }

  lemma {:induction false} InsertKeeps(e: Entry, list: seq<Entry>)
    ensures multiset(Insert(e, list)) == multiset([e] + list)
    ensures Total(Insert(e, list)) == e.size + Total(list)
  {
    if |list| == 0 || e.time <= list[0].time {
      assert ([e] + list)[1..] == list;
    } else {
      InsertKeeps(e, list[1..]);
      assert list == [list[0]] + list[1..];
    }
  }

  lemma {:induction false} InsertStable(e: Entry, list: seq<Entry>, t: int)
    requires Sorted(list)
    ensures AtTime(Insert(e, list), t) == (if e.time == t then [e] else []) + AtTime(list, t)
  {
    if |list| == 0 || e.time <= list[0].time {
      assert ([e] + list)[1..] == list;
    } else {
      InsertStable(e, list[1..], t);
      var own, first, rest := if e.time == t then [e] else [], if list[0].time == t then [list[0]] else [], AtTime(list[1..], t);
      AtTimeCons(list[0], Insert(e, list[1..]), t);
      AtTimeCons(list[0], list[1..], t);
      assert [list[0]] + list[1..] == list;
      assert own == [] || first == [];
      assert first + (own + rest) == own + (first + rest);
    }
  }

  lemma {:induction false} AtTimeCons(e: Entry, list: seq<Entry>, t: int)
    ensures AtTime([e] + list, t) == (if e.time == t then [e] else []) + AtTime(list, t)
  {
    assert ([e] + list)[1..] == list;
  }

  lemma {:induction false} InsertMembers(e: Entry, list: seq<Entry>)
    ensures forall x :: x in Insert(e, list) ==> x == e || x in list
  {
    if |list| > 0 && e.time > list[0].time {
      InsertMembers(e, list[1..]);
    }
  }

  lemma {:induction false} InsertSorted(e: Entry, list: seq<Entry>)
    requires Sorted(list)
    ensures Sorted(Insert(e, list))
  {
    if |list| > 0 && e.time > list[0].time {
      var rest := Insert(e, list[1..]);
      InsertSorted(e, list[1..]);
      InsertMembers(e, list[1..]);
      forall j | 0 <= j < |rest|
        ensures list[0].time <= rest[j].time
      {
        assert rest[j] in rest;
      }
    }
  }

  /** The order entries are removed in: oldest first, ties as listed, nothing lost or invented. */
  lemma {:induction false} SortByTimeProps(list: seq<Entry>, t: int)
    ensures Sorted(SortByTime(list))
    ensures multiset(SortByTime(list)) == multiset(list)
    ensures Total(SortByTime(list)) == Total(list)
    ensures AtTime(SortByTime(list), t) == AtTime(list, t)
  {
    if |list| > 0 {
      SortByTimeProps(list[1..], t);
      InsertKeeps(list[0], SortByTime(list[1..]));
      InsertStable(list[0], SortByTime(list[1..]), t);
      InsertSorted(list[0], SortByTime(list[1..]));
      assert list == [list[0]] + list[1..];
    }
  }

  /**
   * maybePruneCache. `working` is how many removals succeed before one throws, which ends the pruning. Over
   * the cap, what is removed is a prefix of the time-sorted entries, no longer than needed; unless a removal
   * threw, what stays fits.
   */
  method MaybePruneCache(entries: seq<Entry>, working: nat) returns (removed: seq<Entry>, left: seq<Entry>, totalBytes: nat)
    ensures totalBytes == Total(left)
    ensures Total(entries) <= 2147483648 ==> removed == [] && left == entries
    ensures Total(entries) > 2147483648 ==> removed + left == SortByTime(entries)
    ensures forall k :: 0 <= k < |removed| ==> Total(SortByTime(entries)[k..]) > 2147483648
    ensures |removed| <= working
    ensures |removed| < working ==> totalBytes <= 2147483648
  {
    var list;
    list, totalBytes := Measure(entries);
    if totalBytes <= MAX_CACHE_BYTES { return [], list, totalBytes; }
    SortByTimeProps(entries, 0);
    removed, left, totalBytes := PruneSorted(SortByTime(list), totalBytes, working);
  }

  method Measure(entries: seq<Entry>) returns (list: seq<Entry>, totalBytes: nat)
    ensures list == entries && totalBytes == Total(entries)
  {
    list, totalBytes := [], 0;
    for i := 0 to |entries|
      invariant list == entries[..i] && totalBytes == Total(list)
    {
      TotalSnoc(list, entries[i]);
      totalBytes := totalBytes + entries[i].size;
      list := list + [entries[i]];
    }
  }

  lemma TotalStep(list: seq<Entry>, n: nat)
    requires n < |list|
    ensures list[..n] + [list[n]] == list[..n + 1] && list[n..][1..] == list[n + 1..]
    ensures Total(list[n..]) == list[n].size + Total(list[n + 1..])
  {
    assert list[n..][1..] == list[n + 1..];
  }

  method PruneSorted(list: seq<Entry>, total: nat, working: nat) returns (removed: seq<Entry>, left: seq<Entry>, totalBytes: nat)
    requires total == Total(list)
    ensures removed + left == list
    ensures totalBytes == Total(left)
    ensures forall k :: 0 <= k < |removed| ==> Total(list[k..]) > MAX_CACHE_BYTES
    ensures |removed| <= working
    ensures |removed| < working ==> totalBytes <= MAX_CACHE_BYTES
  {
    removed, left, totalBytes := [], list, total;
    while totalBytes > MAX_CACHE_BYTES && |left| > 0
      invariant |removed| <= |list| && removed == list[..|removed|] && left == list[|removed|..]
      invariant totalBytes == Total(left)
      invariant |removed| <= working
      invariant forall k :: 0 <= k < |removed| ==> Total(list[k..]) > MAX_CACHE_BYTES
      decreases |left|
    {
      if |removed| == working { return; }
      TotalStep(list, |removed|);
      removed := removed + [left[0]];
      totalBytes := totalBytes - left[0].size;
      left := left[1..];
    }
  }
}
