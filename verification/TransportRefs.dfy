/**
 * Reference counting of shared transports in the resolver, for operations that do not overlap: each one
 * runs from its start to its end, and what its awaits answer is a parameter.
 */
module TransportRefs {
  import opened Basics

  datatype Shared = Shared(authority: string, refs: int, attached: set<nat>, dead: bool, killed: bool)
  datatype Flow = Flow(shared: nat, key: string, dead: bool)

  /** The resolver's maps, and every transport and flow it ever created. */
  datatype State = State(
    connections: map<string, nat>,  // flow by key
    transports: map<string, nat>,   // registered transport by authority
    shared: seq<Shared>,
    flows: seq<Flow>,
    unattached: seq<nat>)           // per transport, the acquires that have attached no flow

  // --- what holds between operations ---

  /** Every reference is an attached flow or an acquire without one. */
  ghost predicate RefsCounted(s: State) {
    && |s.unattached| == |s.shared|
    && forall t :: 0 <= t < |s.shared| ==> s.shared[t].refs == |s.shared[t].attached| + s.unattached[t]
  }

  ghost predicate FlowAttached(s: State, f: nat) {
    f < |s.flows| && s.flows[f].shared < |s.shared| && f in s.shared[s.flows[f].shared].attached
  }

  /** The connection map and the transports agree on which flows are attached where. */
  ghost predicate FlowsLinked(s: State) {
    && (forall f: nat :: f < |s.flows| ==> s.flows[f].shared < |s.shared|)
    && (forall k :: k in s.connections ==> FlowAttached(s, s.connections[k]) && s.flows[s.connections[k]].key == k)
    && (forall t: nat, f: nat {:trigger f in s.shared[t].attached} :: t < |s.shared| && f in s.shared[t].attached ==>
          f < |s.flows| && s.flows[f].shared == t && s.flows[f].key in s.connections && s.connections[s.flows[f].key] == f)
  }

  ghost predicate Registered(s: State) {
    forall a :: a in s.transports ==> s.transports[a] < |s.shared| && s.shared[s.transports[a]].authority == a
  }

  /** A transport is torn down only when it is dead or nothing refers to it any more, and never while registered. */
  ghost predicate TornDownRightly(s: State) {
    forall t :: 0 <= t < |s.shared| && s.shared[t].killed ==>
      (s.shared[t].dead || s.shared[t].refs <= 0) && forall a :: a in s.transports ==> s.transports[a] != t
  }

  /** And it is torn down with its last reference. */
  ghost predicate KeptUp(s: State) {
    forall t :: 0 <= t < |s.shared| && !s.shared[t].killed ==> s.shared[t].refs > 0
  }

  ghost predicate Good(s: State) {
    RefsCounted(s) && FlowsLinked(s) && Registered(s) && TornDownRightly(s) && KeptUp(s)
  }

  /** So before dispose a transport that is not dead and has a flow is up. */
  lemma NeverTornDownInUse(s: State, f: nat)
    requires Good(s) && FlowAttached(s, f) && !s.shared[s.flows[f].shared].dead
    ensures !s.shared[s.flows[f].shared].killed
  {
    var t := s.flows[f].shared;
    assert s.shared[t].attached != {} && |s.shared[t].attached| > 0;
  }

  // --- the books, over all transports ---

  function Sum(counts: seq<int>): int {
    if |counts| == 0 then 0 else Sum(counts[..|counts| - 1]) + counts[|counts| - 1]
  }

  lemma {:induction false} SumSnoc(counts: seq<int>, x: int)
    ensures Sum(counts + [x]) == Sum(counts) + x
  {
    assert (counts + [x])[..|counts|] == counts;
  }

  lemma {:induction false} SumUpdate(counts: seq<int>, i: nat, x: int)
    requires i < |counts|
    ensures Sum(counts[i := x]) == Sum(counts) - counts[i] + x
  {
    var n := |counts| - 1;
    if i < n {
      SumUpdate(counts[..n], i, x);
      assert counts[i := x][..n] == counts[..n][i := x];
    } else {
      assert counts[i := x][..n] == counts[..n];
    }
  }

  function Refs(shared: seq<Shared>): seq<int> {
    seq(|shared|, i requires 0 <= i < |shared| => shared[i].refs)
  }

  /** The connections whose flow runs over one of the first n transports. */
  function KeysBelow(s: State, n: nat): set<string>
    requires FlowsInRange(s)
  {
    set k | k in s.connections && s.flows[s.connections[k]].shared < n
  }

  predicate FlowsInRange(s: State) {
    forall k :: k in s.connections ==> s.connections[k] < |s.flows|
  }

  lemma {:induction false} SameSize(keys: set<string>, m: map<string, nat>, fs: set<nat>)
    requires keys <= m.Keys && (set k | k in keys :: m[k]) == fs
    requires forall k, l :: k in keys && l in keys && m[k] == m[l] ==> k == l
    ensures |keys| == |fs|
  {
    if keys != {} {
      var k :| k in keys;
      var rest := set l | l in keys - {k} :: m[l];
      assert rest == fs - {m[k]};
      SameSize(keys - {k}, m, rest);
    }
  }

  lemma KeysOf(s: State, t: nat)
    requires FlowsLinked(s) && FlowsInRange(s) && t < |s.shared|
    ensures |KeysBelow(s, t + 1)| == |KeysBelow(s, t)| + |s.shared[t].attached|
  {
    var own := KeysBelow(s, t + 1) - KeysBelow(s, t);
    var image := set k | k in own :: s.connections[k];
    assert KeysBelow(s, t) + own == KeysBelow(s, t + 1);
    forall f | f in s.shared[t].attached
      ensures f in image
    {
      assert s.flows[f].key in own;
    }
    forall k | k in own
      ensures s.connections[k] in s.shared[t].attached
    {
      assert FlowAttached(s, s.connections[k]);
    }
    assert image == s.shared[t].attached;
    SameSize(own, s.connections, image);
  }

  lemma SumStep(counts: seq<int>, n: nat)
    requires 0 < n <= |counts|
    ensures Sum(counts[..n]) == Sum(counts[..n - 1]) + counts[n - 1]
  {
    assert counts[..n][..n - 1] == counts[..n - 1];
  }

  lemma {:induction false} RefsBelow(s: State, n: nat)
    requires RefsCounted(s) && FlowsLinked(s) && FlowsInRange(s) && n <= |s.shared|
    ensures Sum(Refs(s.shared)[..n]) == |KeysBelow(s, n)| + Sum(s.unattached[..n])
  {
    if n > 0 {
      RefsBelow(s, n - 1);
      KeysOf(s, n - 1);
      SumStep(Refs(s.shared), n);
      SumStep(s.unattached, n);
    }
  }

  /** All references together: one for each connection, and one for each acquire that attached no flow. */
  lemma RefsConserved(s: State)
    requires Good(s)
    ensures Sum(Refs(s.shared)) == |s.connections| + Sum(s.unattached)
  {
    forall k | k in s.connections
      ensures s.connections[k] < |s.flows| && s.flows[s.connections[k]].shared < |s.shared|
    {
      assert FlowAttached(s, s.connections[k]);
    }
    RefsBelow(s, |s.shared|);
    assert Refs(s.shared)[..|s.shared|] == Refs(s.shared) && s.unattached[..|s.shared|] == s.unattached;
    assert KeysBelow(s, |s.shared|) == s.connections.Keys;
  }

  // --- the building blocks ---

  function Create(s: State, authority: string): State {
    s.(shared := s.shared + [Shared(authority, 1, {}, false, false)], unattached := s.unattached + [1])
  }

  function Bump(s: State, t: nat): State
    requires t < |s.shared| == |s.unattached|
  {
    s.(shared := s.shared[t := s.shared[t].(refs := s.shared[t].refs + 1)], unattached := s.unattached[t := s.unattached[t] + 1])
  }

  function TransportDies(s: State, t: nat): State
    requires t < |s.shared|
  {
    s.(shared := s.shared[t := s.shared[t].(dead := true)])
  }

  function FlowDies(s: State, f: nat): State
    requires f < |s.flows|
  {
    s.(flows := s.flows[f := s.flows[f].(dead := true)])
  }

  /** killSharedTransport of what is registered under an authority, and its removal from the map. */
  function KillRegistered(s: State, authority: string): State
    requires authority in s.transports && s.transports[authority] < |s.shared|
  {
    var t := s.transports[authority];
    s.(shared := s.shared[t := s.shared[t].(killed := true)], transports := s.transports - {authority})
  }

  /** A transport without one of its flows; it is torn down with its last reference. */
  function Release(x: Shared, f: nat): Shared {
    x.(attached := x.attached - {f}, refs := x.refs - 1, killed := x.killed || x.refs <= 1)
  }

  /** killConnection with releaseTransport, and the removal of the key. */
  function KillConnection(s: State, key: string): State
    requires key in s.connections && s.connections[key] < |s.flows| && s.flows[s.connections[key]].shared < |s.shared|
  {
    var f := s.connections[key];
    var t := s.flows[f].shared;
    s.(connections := s.connections - {key},
       shared := s.shared[t := Release(s.shared[t], f)],
       transports := if s.shared[t].refs <= 1 then s.transports - {s.shared[t].authority} else s.transports)
  }

  function Attach(s: State, key: string, t: nat): State
    requires t < |s.shared| == |s.unattached| && s.unattached[t] > 0
  {
    var f := |s.flows|;
    s.(flows := s.flows + [Flow(t, key, false)],
       shared := s.shared[t := s.shared[t].(attached := s.shared[t].attached + {f})],
       connections := s.connections[key := f],
       unattached := s.unattached[t := s.unattached[t] - 1])
  }

  // --- what decides an operation ---

  /** The flow under a key looks alive, and so does its transport. */
  predicate Healthy(s: State, key: string) {
    && key in s.connections && s.connections[key] < |s.flows|
    && !s.flows[s.connections[key]].dead
    && s.flows[s.connections[key]].shared < |s.shared| && !s.shared[s.flows[s.connections[key]].shared].dead
  }

  /** A transport is registered and looks alive. */
  predicate Registers(s: State, authority: string) {
    authority in s.transports && s.transports[authority] < |s.shared| && !s.shared[s.transports[authority]].dead
  }

  /** The state after an acquire: of the registered transport, or of a new one after the old was ruled out. */
  function Acquired(s: State, authority: string, share: bool, reuse: bool, createOk: bool): State
    requires |s.shared| == |s.unattached| && (authority in s.transports ==> s.transports[authority] < |s.shared|)
    requires reuse ==> authority in s.transports
  {
    if reuse then Bump(s, s.transports[authority])
    else
      var ruledOut :=
        if share && authority in s.transports then KillRegistered(TransportDies(s, s.transports[authority]), authority) else s;
      if !createOk then ruledOut
      else if share then Create(ruledOut, authority).(transports := ruledOut.transports[authority := |s.shared|])
      else Create(ruledOut, authority)
  }

  /** Acquiring a transport cures no flow; a standalone one leaves every flow as it was. */
  lemma HealthyAfterAcquire(s: State, authority: string, share: bool, reuse: bool, createOk: bool, key: string)
    requires Good(s) && (reuse ==> share && authority in s.transports)
    ensures Healthy(Acquired(s, authority, share, reuse, createOk), key) ==> Healthy(s, key)
    ensures !share && Healthy(s, key) ==> Healthy(Acquired(s, authority, share, reuse, createOk), key)
  {
    if key in s.connections {
      assert FlowAttached(s, s.connections[key]);
    }
  }

  /** The transport an acquire comes up with. */
  function Sought(s: State, authority: string, share: bool, probe: bool, createOk: bool): Option<nat> {
    if share && probe && Registers(s, authority) then Some(s.transports[authority])
    else if createOk then Some(|s.shared|) else None
  }

  /** The transports after an acquire, in their own fields. */
  lemma AcquiredExactly(s: State, authority: string, share: bool, probe: bool, createOk: bool, got: Option<nat>, n: State)
    requires Good(s) && got == Sought(s, authority, share, probe, createOk)
    requires n == Acquired(s, authority, share, share && probe && Registers(s, authority), createOk)
    ensures authority in s.transports ==> s.transports[authority] < |s.shared|
    ensures got == if share && probe && authority in s.transports && !s.shared[s.transports[authority]].dead then
                     Some(s.transports[authority])
                   else if createOk then Some(|s.shared|)
                   else None
    ensures |n.shared| == |s.shared| + if got == Some(|s.shared|) then 1 else 0
    ensures got == Some(|s.shared|) ==> n.shared[|s.shared|] == Shared(authority, 1, {}, false, false)
    ensures forall t: nat :: t < |s.shared| && !(share && authority in s.transports && t == s.transports[authority]) ==>
              n.shared[t] == s.shared[t]
    ensures share && authority in s.transports ==>
              var t := s.transports[authority];
              n.shared[t] == if got == Some(t) then s.shared[t].(refs := s.shared[t].refs + 1)
                             else s.shared[t].(dead := true, killed := true)
    ensures n.transports == if !share then s.transports
                            else if got.Some? then s.transports[authority := got.value]
                            else s.transports - {authority}
  {
    if share && authority in s.transports {
      MapReplaced(s.transports, authority, |s.shared|);
    }
  }

  // --- which transports an operation takes down ---

  /** The flow under a key holds the last reference to its transport. */
  ghost predicate LastUse(s: State, key: string, t: nat) {
    && key in s.connections && s.connections[key] < |s.flows| && t < |s.shared|
    && t == s.flows[s.connections[key]].shared && s.shared[t].refs <= 1
  }

  ghost predicate LastUseOf(s: State, key: string, authority: string) {
    exists t: nat :: LastUse(s, key, t) && s.shared[t].authority == authority
  }

  /** The flow under a key, if there is one, is taken off its transport. */
  ghost predicate Dropped(s: State, key: string, n: State) {
    && |n.shared| == |s.shared|
    && (forall t: nat :: t < |s.shared| ==>
          && n.shared[t].authority == s.shared[t].authority && n.shared[t].dead == s.shared[t].dead
          && (n.shared[t].killed <==> s.shared[t].killed || LastUse(s, key, t)))
    && (forall a :: a in n.transports <==> a in s.transports && !LastUseOf(s, key, a))
    && (forall a :: a in n.transports ==> n.transports[a] == s.transports[a])
  }

  lemma DroppedExactly(s: State, key: string)
    requires Good(s) && key in s.connections
    ensures FlowAttached(s, s.connections[key]) && Dropped(s, key, KillConnection(s, key))
  {
    assert FlowAttached(s, s.connections[key]);
    assert LastUse(s, key, s.flows[s.connections[key]].shared) <==> s.shared[s.flows[s.connections[key]].shared].refs <= 1;
  }

  /**
   * What is left of the transports when one is sought for `authority` and `got` is the outcome, and the flow
   * under `key` is `dropped` or not: the registered one is dead and torn down unless it is what was got; so
   * is, without being dead, the one that the dropped flow was the last to use; and the others are as they
   * were. The authority is registered to what was got, if anything, unless the transport of the dropped
   * flow takes the registration with it.
   */
  ghost predicate Aftermath(s: State, authority: string, share: bool, got: Option<nat>, key: string, dropped: bool, n: State) {
    && |n.shared| == |s.shared| + (if got == Some(|s.shared|) then 1 else 0)
    && (got == Some(|s.shared|) ==>
          var t := |s.shared|; n.shared[t].authority == authority && !n.shared[t].dead && !n.shared[t].killed)
    && (forall t: nat :: t < |s.shared| ==>
          var ruledOut := share && authority in s.transports && t == s.transports[authority] && got != Some(t);
          && n.shared[t].authority == s.shared[t].authority
          && (n.shared[t].dead <==> s.shared[t].dead || ruledOut)
          && (n.shared[t].killed <==> s.shared[t].killed || ruledOut || (dropped && LastUse(s, key, t) && got != Some(t))))
    && RegisteredAfter(s, authority, share, got, key, dropped, n)
  }

  ghost predicate RegisteredAfter(s: State, authority: string, share: bool, got: Option<nat>, key: string, dropped: bool, n: State) {
    && (forall a :: a in n.transports <==>
          && (if share && a == authority then got.Some? else a in s.transports)
          && !(dropped && exists t: nat :: LastUse(s, key, t) && s.shared[t].authority == a && got != Some(t)))
    && (forall a :: a in n.transports ==>
          if share && a == authority then got == Some(n.transports[a])
          else a in s.transports && n.transports[a] == s.transports[a])
  }

  /** An acquire on its own, with the reference it gives. */
  ghost predicate Got(s: State, authority: string, share: bool, got: Option<nat>, m: State) {
    && Aftermath(s, authority, share, got, "", false, m) && m.connections == s.connections && m.flows == s.flows
    && (forall t: nat :: t < |s.shared| ==> m.shared[t].refs == s.shared[t].refs + if got == Some(t) then 1 else 0)
    && (got.Some? && got.value < |s.shared| ==> !s.shared[got.value].killed)
  }

  lemma AcquiredGot(s: State, authority: string, share: bool, reuse: bool, createOk: bool)
    requires Good(s) && (reuse ==> share && Registers(s, authority))
    ensures Got(s, authority, share, if reuse then Some(s.transports[authority]) else if createOk then Some(|s.shared|) else None,
                Acquired(s, authority, share, reuse, createOk))
  {
    if reuse {
      ReusedGot(s, authority, createOk);
    } else if share && authority in s.transports {
      ReplacedGot(s, authority, createOk);
    }
  }

  lemma ReusedGot(s: State, authority: string, createOk: bool)
    requires Good(s) && Registers(s, authority)
    ensures Got(s, authority, true, Some(s.transports[authority]), Acquired(s, authority, true, true, createOk))
  {
  }

  lemma ReplacedGot(s: State, authority: string, createOk: bool)
    requires Good(s) && authority in s.transports
    ensures Got(s, authority, true, if createOk then Some(|s.shared|) else None, Acquired(s, authority, true, false, createOk))
  {
  }

  lemma AftermathOfNone(s: State, authority: string, share: bool, got: Option<nat>, m: State, key: string)
    requires Aftermath(s, authority, share, got, "", false, m)
    ensures Aftermath(s, authority, share, got, key, false, m)
  {
  }

  /** Acquiring, and dropping the flow under a key afterwards, have that aftermath. */
  lemma AftermathOfDrop(s: State, authority: string, share: bool, got: Option<nat>, m: State, key: string, n: State)
    requires Good(s) && Got(s, authority, share, got, m) && Dropped(m, key, n)
    ensures Aftermath(s, authority, share, got, key, true, n)
  {
    LastUseAfter(s, authority, share, got, m, key);
    RegisteredAfterDrop(s, authority, share, got, m, key, n);
  }

  lemma LastUseAfter(s: State, authority: string, share: bool, got: Option<nat>, m: State, key: string)
    requires Good(s) && Got(s, authority, share, got, m)
    ensures forall t: nat :: LastUse(m, key, t) <==> LastUse(s, key, t) && got != Some(t)
  {
    if key in s.connections {
      assert FlowAttached(s, s.connections[key]);
    }
  }

  lemma RegisteredAfterDrop(s: State, authority: string, share: bool, got: Option<nat>, m: State, key: string, n: State)
    requires Got(s, authority, share, got, m) && Dropped(m, key, n)
    requires forall t: nat :: LastUse(m, key, t) <==> LastUse(s, key, t) && got != Some(t)
    ensures RegisteredAfter(s, authority, share, got, key, true, n)
  {
    assert forall a :: LastUseOf(m, key, a) <==>
             exists t: nat :: LastUse(s, key, t) && s.shared[t].authority == a && got != Some(t);
  }

  /** The flow under the key may also be kept, or nothing acquired. */
  lemma AftermathOf(s: State, authority: string, share: bool, got: Option<nat>, m: State, key: string, dropped: bool, n: State)
    requires Good(s) && Got(s, authority, share, got, m)
    requires if dropped then Dropped(m, key, n) else n.shared == m.shared && n.transports == m.transports
    ensures Aftermath(s, authority, share, got, key, dropped, n)
  {
    if dropped {
      AftermathOfDrop(s, authority, share, got, m, key, n);
    } else {
      AftermathOfNone(s, authority, share, got, m, key);
    }
  }

  /** The same state but for flows found dead. */
  ghost predicate Aged(s: State, m: State) {
    && m == s.(flows := m.flows) && |m.flows| == |s.flows|
    && forall f: nat :: f < |s.flows| ==> m.flows[f].shared == s.flows[f].shared
  }

  /** The aftermath looks at which transport a flow is on, not at its life. */
  lemma AftermathOfFlows(s: State, t: State, authority: string, share: bool, got: Option<nat>, key: string, dropped: bool, n: State)
    requires Aged(s, t)
    requires Aftermath(t, authority, share, got, key, dropped, n)
    ensures Aftermath(s, authority, share, got, key, dropped, n)
  {
    assert forall u: nat :: LastUse(t, key, u) <==> LastUse(s, key, u);
  }

  lemma DroppedOfFlows(s: State, t: State, key: string, n: State)
    requires Aged(s, t)
    requires Dropped(t, key, n)
    ensures Dropped(s, key, n)
  {
    assert forall u: nat :: LastUse(t, key, u) <==> LastUse(s, key, u);
    assert forall a :: LastUseOf(t, key, a) <==> LastUseOf(s, key, a);
  }

  lemma NoAftermath(s: State, authority: string, key: string, n: State)
    requires Aged(s, n)
    ensures Aftermath(s, authority, false, None, key, false, n)
  {
  }

  lemma RuledOutDead(s: State, authority: string, share: bool, got: Option<nat>, key: string, dropped: bool, n: State)
    requires Good(s) && Aftermath(s, authority, share, got, key, dropped, n)
    ensures share && authority in s.transports && got != Some(s.transports[authority]) ==>
              var t := s.transports[authority]; t < |n.shared| && n.shared[t].dead && n.shared[t].killed
  {
  }

  /** The flow under a key is the last user of a transport of this authority other than the one just got. */
  ghost predicate LastOfItsTransport(s: State, key: string, authority: string, got: Option<nat>) {
    && key in s.connections && s.connections[key] < |s.flows|
    && var t := s.flows[s.connections[key]].shared;
       t < |s.shared| && s.shared[t].refs <= 1 && s.shared[t].authority == authority && got != Some(t)
  }

  /** What was got is registered, unless dropping the previous flow undid that. */
  lemma RegisteredAfterwards(s: State, authority: string, got: Option<nat>, key: string, dropped: bool, n: State)
    requires Aftermath(s, authority, true, got, key, dropped, n) && got.Some?
    ensures authority in n.transports <==> !(dropped && LastOfItsTransport(s, key, authority, got))
    ensures authority in n.transports ==> n.transports[authority] == got.value
  {
    if dropped && LastOfItsTransport(s, key, authority, got) {
      assert LastUse(s, key, s.flows[s.connections[key]].shared);
    }
  }

  lemma HealthyRaw(s: State, key: string)
    requires Good(s)
    ensures key in s.connections ==> s.connections[key] < |s.flows| && s.flows[s.connections[key]].shared < |s.shared|
    ensures Healthy(s, key) <==> && key in s.connections && !s.flows[s.connections[key]].dead
                                 && !s.shared[s.flows[s.connections[key]].shared].dead
  {
    if key in s.connections {
      assert FlowAttached(s, s.connections[key]);
    }
  }

  lemma RegistersRaw(s: State, authority: string)
    requires Good(s)
    ensures authority in s.transports ==> s.transports[authority] < |s.shared|
    ensures Registers(s, authority) <==> authority in s.transports && !s.shared[s.transports[authority]].dead
  {
  }

  lemma CreateGood(s: State, authority: string)
    requires Good(s)
    ensures Good(Create(s, authority))
    ensures authority !in s.transports ==> Good(Create(s, authority).(transports := s.transports[authority := |s.shared|]))
  {
    var c := Create(s, authority);
    assert forall f: nat :: FlowAttached(s, f) ==> FlowAttached(c, f);
    assert FlowsLinked(c);
  }

  lemma BumpSum(s: State, t: nat)
    requires t < |s.shared| == |s.unattached|
    ensures Sum(Bump(s, t).unattached) == Sum(s.unattached) + 1
  {
    SumUpdate(s.unattached, t, s.unattached[t] + 1);
  }

  lemma BumpGood(s: State, t: nat)
    requires Good(s) && t < |s.shared| && !s.shared[t].killed
    ensures Good(Bump(s, t))
  {
    assert forall f: nat :: FlowAttached(s, f) ==> FlowAttached(Bump(s, t), f);
  }

  lemma DieGood(s: State, t: nat)
    requires Good(s) && t < |s.shared|
    ensures Good(TransportDies(s, t))
  {
    assert forall f: nat :: FlowAttached(s, f) ==> FlowAttached(TransportDies(s, t), f);
  }

  lemma FlowDiesGood(s: State, f: nat)
    requires Good(s) && f < |s.flows|
    ensures Good(FlowDies(s, f))
  {
    assert forall g: nat :: FlowAttached(s, g) ==> FlowAttached(FlowDies(s, f), g);
  }

  lemma KillRegisteredGood(s: State, authority: string)
    requires Good(s) && authority in s.transports && s.shared[s.transports[authority]].dead
    ensures Good(KillRegistered(s, authority))
  {
    assert forall f: nat :: FlowAttached(s, f) ==> FlowAttached(KillRegistered(s, authority), f);
  }

  lemma KillConnectionLinked(s: State, key: string)
    requires FlowsLinked(s) && key in s.connections
    ensures FlowsLinked(KillConnection(s, key))
  {
    var k := KillConnection(s, key);
    var f := s.connections[key];
    forall x | x in k.connections
      ensures FlowAttached(k, k.connections[x]) && k.flows[k.connections[x]].key == x
    {
      assert FlowAttached(s, s.connections[x]) && s.flows[s.connections[x]].key == x;
      assert s.flows[f].key == key;
    }
  }

  lemma KillConnectionGood(s: State, key: string)
    requires Good(s) && key in s.connections
    ensures Good(KillConnection(s, key))
  {
    assert FlowAttached(s, s.connections[key]);
    KillConnectionLinked(s, key);
    KillConnectionTornDown(s, key);
  }

  lemma KillConnectionTornDown(s: State, key: string)
    requires TornDownRightly(s) && Registered(s) && key in s.connections && FlowAttached(s, s.connections[key])
    ensures TornDownRightly(KillConnection(s, key)) && Registered(KillConnection(s, key))
  {
    var k, t := KillConnection(s, key), s.flows[s.connections[key]].shared;
    assert forall i :: 0 <= i < |s.shared| && i != t ==> k.shared[i] == s.shared[i];
  }

  lemma AttachLinked(s: State, key: string, t: nat)
    requires FlowsLinked(s) && t < |s.shared| == |s.unattached| && s.unattached[t] > 0 && key !in s.connections
    ensures FlowsLinked(Attach(s, key, t))
  {
    var a := Attach(s, key, t);
    assert forall f: nat :: FlowAttached(s, f) ==> FlowAttached(a, f);
    assert FlowAttached(a, |s.flows|);
  }

  lemma AttachSum(s: State, key: string, t: nat)
    requires t < |s.shared| == |s.unattached| && s.unattached[t] > 0
    ensures Sum(Attach(s, key, t).unattached) == Sum(s.unattached) - 1
  {
    SumUpdate(s.unattached, t, s.unattached[t] - 1);
  }

  lemma AttachGood(s: State, key: string, t: nat)
    requires Good(s) && t < |s.shared| && s.unattached[t] > 0 && key !in s.connections
    ensures Good(Attach(s, key, t)) && FlowAttached(Attach(s, key, t), |s.flows|)
  {
    AttachLinked(s, key, t);
    assert |s.flows| !in s.shared[t].attached;
  }

  lemma MapReplaced(m: map<string, nat>, key: string, v: nat)
    ensures (m - {key})[key := v] == m[key := v]
  {
  }

  // --- the resolver ---

  datatype Outcome = Reused | Failed | Attached(flow: nat)

  const EXEC_SUFFIX: string := ":execServer"

  class Resolver {
    var connections: map<string, nat>
    var transports: map<string, nat>
    var shared: seq<Shared>
    var flows: seq<Flow>
    ghost var unattached: seq<nat>

    ghost function Model(): State
      reads this
    {
      State(connections, transports, shared, flows, unattached)
    }

    constructor ()
      ensures Good(Model()) && Model() == State(map[], map[], [], [], [])
    {
      connections, transports, shared, flows, unattached := map[], map[], [], [], [];
    }

    method BumpRefs(t: nat)
      requires Good(Model()) && t < |shared| && !shared[t].killed
      modifies this`shared, this`unattached
      ensures Good(Model()) && Model() == Bump(old(Model()), t) && Sum(unattached) == Sum(old(unattached)) + 1
    {
      BumpGood(Model(), t);
      BumpSum(Model(), t);
      Increment(t);
    }

    method Increment(t: nat)
      requires t < |shared| == |unattached|
      modifies this`shared, this`unattached
      ensures Model() == Bump(old(Model()), t)
    {
      shared := shared[t := shared[t].(refs := shared[t].refs + 1)];
      unattached := unattached[t := unattached[t] + 1];
    }

    method TearDownDead(authority: string)
      requires Good(Model()) && authority in transports && shared[transports[authority]].dead
      modifies this`shared, this`transports
      ensures Good(Model()) && Model() == KillRegistered(old(Model()), authority)
    {
      KillRegisteredGood(Model(), authority);
      var t := transports[authority];
      shared := shared[t := shared[t].(killed := true)];
      transports := transports - {authority};
    }

    method CreateTransport(authority: string, share: bool) returns (t: nat)
      requires Good(Model()) && (share ==> authority !in transports)
      modifies this`shared, this`unattached, this`transports
      ensures Good(Model()) && t == |old(shared)|
      ensures var c := Create(old(Model()), authority);
              Model() == if share then c.(transports := c.transports[authority := t]) else c
      ensures Sum(unattached) == Sum(old(unattached)) + 1
    {
      CreateGood(Model(), authority);
      SumSnoc(unattached, 1);
      t := |shared|;
      shared := shared + [Shared(authority, 1, {}, false, false)];
      unattached := unattached + [1];
      if share {
        transports := transports[authority := t];
      }
    }

    /** acquireTransport; with `share` off the transport is standalone. A result comes with one reference. */
    method AcquireTransport(authority: string, share: bool, probeAlive: bool, createOk: bool) returns (r: Option<nat>)
      requires Good(Model())
      modifies this`shared, this`unattached, this`transports, this`flows
      ensures Good(Model()) && flows == old(flows)
      ensures connections == old(connections)
      ensures r == if share && probeAlive && authority in old(transports) && !old(shared)[old(transports)[authority]].dead then
                     Some(old(transports)[authority])
                   else if createOk then Some(|old(shared)|)
                   else None
      ensures |shared| == |old(shared)| + if r == Some(|old(shared)|) then 1 else 0
      ensures r == Some(|old(shared)|) ==> shared[|old(shared)|] == Shared(authority, 1, {}, false, false)
      ensures forall t: nat :: t < |old(shared)| && !(share && authority in old(transports) && t == old(transports)[authority]) ==>
                shared[t] == old(shared)[t]
      ensures share && authority in old(transports) ==>
                var t := old(transports)[authority];
                shared[t] == if r == Some(t) then old(shared)[t].(refs := old(shared)[t].refs + 1)
                             else old(shared)[t].(dead := true, killed := true)
      ensures transports == if !share then old(transports)
                            else if r.Some? then old(transports)[authority := r.value]
                            else old(transports) - {authority}
      ensures Model() == Acquired(old(Model()), authority, share, share && probeAlive && Registers(old(Model()), authority), createOk)
      ensures Got(old(Model()), authority, share, r, Model())
      ensures r.Some? ==> r.value < |shared| && unattached[r.value] > 0 && !shared[r.value].dead
      ensures Sum(unattached) == Sum(old(unattached)) + if r.Some? then 1 else 0
    {
      r := Obtain(authority, share, probeAlive, createOk);
      AcquiredExactly(old(Model()), authority, share, probeAlive, createOk, r, Model());
    }

    method Obtain(authority: string, share: bool, probeAlive: bool, createOk: bool) returns (r: Option<nat>)
      requires Good(Model())
      modifies this`shared, this`unattached, this`transports, this`flows
      ensures Good(Model())
      ensures r == Sought(old(Model()), authority, share, probeAlive, createOk)
      ensures Model() == Acquired(old(Model()), authority, share, share && probeAlive && Registers(old(Model()), authority), createOk)
      ensures Got(old(Model()), authority, share, r, Model())
      ensures Sum(unattached) == Sum(old(unattached)) + if r.Some? then 1 else 0
    {
      AcquiredGot(Model(), authority, share, share && probeAlive && Registers(Model(), authority), createOk);
      if share && authority in transports {
        var t := transports[authority];
        if !shared[t].dead {
          if probeAlive {
            BumpRefs(t);
            return Some(t);
          }
          Death(false, t);
        } else {
          assert shared[t := shared[t].(dead := true)] == shared;
        }
        TearDownDead(authority);
      }
      if !createOk { return None; }
      var t := CreateTransport(authority, share);
      r := Some(t);
    }

    /** releaseTransport, once the flow is off the transport's set. */
    method ReleaseTransport(t: nat, f: nat)
      requires t < |shared|
      modifies this`shared, this`transports
      ensures |shared| == |old(shared)| && forall u: nat :: u < |shared| && u != t ==> shared[u] == old(shared)[u]
      ensures shared[t] == old(shared)[t].(attached := old(shared)[t].attached - {f}, refs := old(shared)[t].refs - 1,
                                           killed := old(shared)[t].killed || old(shared)[t].refs <= 1)
      ensures transports == if old(shared)[t].refs <= 1 then old(transports) - {old(shared)[t].authority} else old(transports)
    {
      var x := shared[t].(attached := shared[t].attached - {f}, refs := shared[t].refs - 1);
      if x.refs <= 0 {
        x := x.(killed := true);
        transports := transports - {x.authority};
      }
      shared := shared[t := x];
    }

    method Kill(key: string)
      requires Good(Model()) && key in connections
      modifies this`shared, this`transports, this`connections
      ensures Good(Model()) && Model() == KillConnection(old(Model()), key)
    {
      KillConnectionGood(Model(), key);
      var f := connections[key];
      ghost var t, was := flows[f].shared, shared;
      ReleaseTransport(flows[f].shared, f);
      assert shared == was[t := Release(was[t], f)];
      connections := connections - {key};
    }

    method AddFlow(key: string, t: nat) returns (f: nat)
      requires Good(Model()) && key !in connections && t < |shared| && unattached[t] > 0
      modifies this`shared, this`flows, this`connections, this`unattached
      ensures Good(Model()) && Model() == Attach(old(Model()), key, t) && f == |old(flows)| && FlowAttached(Model(), f)
      ensures Sum(unattached) == Sum(old(unattached)) - 1
    {
      ghost var before := Model();
      AttachSum(before, key, t);
      AttachGood(before, key, t);
      f := Link(key, t);
    }

    method Link(key: string, t: nat) returns (f: nat)
      requires t < |shared| == |unattached| && unattached[t] > 0
      modifies this`shared, this`flows, this`connections, this`unattached
      ensures Model() == Attach(old(Model()), key, t) && f == |old(flows)|
    {
      f := |flows|;
      flows := flows + [Flow(t, key, false)];
      connections := connections[key := f];
      shared := shared[t := shared[t].(attached := shared[t].attached + {f})];
      unattached := unattached[t := unattached[t] - 1];
    }

    /** A flow's server exits, or a shared transport is found dead, between operations. */
    method Death(flow: bool, i: nat)
      requires Good(Model()) && (if flow then i < |flows| else i < |shared|)
      modifies this`flows, this`shared
      ensures flow ==> shared == old(shared)
      ensures !flow ==> flows == old(flows)
      ensures Good(Model()) && Model() == if flow then FlowDies(old(Model()), i) else TransportDies(old(Model()), i)
    {
      if flow {
        FlowDiesGood(Model(), i);
        flows := flows[i := flows[i].(dead := true)];
      } else {
        DieGood(Model(), i);
        shared := shared[i := shared[i].(dead := true)];
      }
    }

    /** Reuse of the flow under a key, if it looks healthy and its probe answers; otherwise it is dead. */
    method TryReuse(key: string, probe: bool) returns (reused: bool)
      requires Good(Model())
      modifies this`flows, this`shared
      ensures Good(Model())
      ensures shared == old(shared) && (key in connections ==> connections[key] < |old(flows)|)
      ensures reused <==> && probe && key in connections && !old(flows)[connections[key]].dead
                          && old(flows)[connections[key]].shared < |shared| && !shared[old(flows)[connections[key]].shared].dead
      ensures flows == if && !probe && key in connections && !old(flows)[connections[key]].dead
                          && old(flows)[connections[key]].shared < |shared| && !shared[old(flows)[connections[key]].shared].dead
                       then old(flows)[connections[key] := old(flows)[connections[key]].(dead := true)]
                       else old(flows)
      ensures Aged(old(Model()), Model()) && (!reused ==> !Healthy(Model(), key))
      ensures reused <==> probe && Healthy(old(Model()), key)
    {
      reused := false;
      if key in connections {
        var f := connections[key];
        assert FlowAttached(Model(), f);
        if !flows[f].dead && !shared[flows[f].shared].dead {
          if probe { return true; }
          Death(true, f);
        }
      }
    }

    method RemovePrevious(key: string)
      requires Good(Model())
      modifies this`shared, this`transports, this`connections
      ensures Good(Model()) && key !in connections
      ensures |shared| == |old(shared)| && flows == old(flows) && unattached == old(unattached)
      ensures connections == old(connections) - {key} && Dropped(old(Model()), key, Model())
    {
      if key in connections {
        DroppedExactly(Model(), key);
        Kill(key);
      } else {
        assert connections == connections - {key};
      }
    }

    /** Put a new flow on an acquired transport in place of the previous one under the key. */
    method Replace(key: string, t: nat, flowOk: bool) returns (r: Outcome)
      requires Good(Model()) && t < |shared| && unattached[t] > 0
      modifies this
      ensures Good(Model())
      ensures r == if flowOk then Attached(|old(flows)|) else Failed
      ensures flows == if flowOk then old(flows) + [Flow(t, key, false)] else old(flows)
      ensures Dropped(old(Model()), key, Model())
      ensures r.Attached? ==> FlowAttached(Model(), r.flow)
      ensures connections == if flowOk then old(connections)[key := r.flow] else old(connections) - {key}
      ensures Sum(unattached) == Sum(old(unattached)) - if flowOk then 1 else 0
    {
      MapReplaced(connections, key, |flows|);
      RemovePrevious(key);
      if !flowOk { return Failed; }
      var f := AddFlow(key, t);
      r := Attached(f);
    }

    /** resolveFlow: the previous flow if it is healthy and answers, or a new one on the transport. */
    method ResolveFlow(authority: string, t: nat, probePrev: bool, flowOk: bool) returns (r: Outcome)
      requires Good(Model()) && t < |shared| && unattached[t] > 0
      modifies this
      ensures Good(Model())
      ensures r == if probePrev && Healthy(old(Model()), authority) then Reused
                   else if flowOk then Attached(|old(flows)|) else Failed
      ensures r == Reused ==> shared == old(shared) && transports == old(transports)
      ensures r != Reused ==> Dropped(old(Model()), authority, Model())
      ensures r.Attached? ==> FlowAttached(Model(), r.flow) && flows[r.flow] == Flow(t, authority, false)
      ensures connections ==
                if r.Attached? then old(connections)[authority := r.flow]
                else if r == Failed then old(connections) - {authority}
                else old(connections)
      ensures Sum(unattached) == Sum(old(unattached)) - if r.Attached? then 1 else 0
    {
      var reused := TryReuse(authority, probePrev);
      if reused { return Reused; }
      ghost var m := Model();
      r := Replace(authority, t, flowOk);
      DroppedOfFlows(old(Model()), m, authority, Model());
    }

    /** resolve once no flow could be reused at first. */
    method Connect(authority: string, share: bool, probeTransport: bool, createOk: bool, probePrev: bool, flowOk: bool)
      returns (r: Outcome, ghost got: Option<nat>)
      requires Good(Model()) && (share ==> !Healthy(Model(), authority))
      modifies this
      ensures Good(Model())
      ensures got == Sought(old(Model()), authority, share, probeTransport, createOk)
      ensures r == if got == None then Failed
                   else if probePrev && Healthy(old(Model()), authority) then Reused
                   else if flowOk then Attached(|old(flows)|) else Failed
      ensures r.Attached? ==> FlowAttached(Model(), r.flow) && flows[r.flow] == Flow(got.value, authority, false)
      ensures connections == if r.Attached? then old(connections)[authority := r.flow]
                             else if got.Some? && r == Failed then old(connections) - {authority}
                             else old(connections)
      ensures Aftermath(old(Model()), authority, share, got, authority, got.Some? && r != Reused, Model())
      ensures Sum(unattached) == Sum(old(unattached)) + if got.Some? && !r.Attached? then 1 else 0
    {
      ghost var was := Model();
      ghost var reuse := share && probeTransport && Registers(was, authority);
      HealthyAfterAcquire(was, authority, share, reuse, createOk, authority);
      var transport := AcquireTransport(authority, share, probeTransport, createOk);
      got := transport;
      ghost var m := Model();
      if transport == None {
        AftermathOf(was, authority, share, got, m, authority, false, m);
        return Failed, None;
      }
      r := ResolveFlow(authority, transport.value, probePrev, flowOk);
      AftermathOf(was, authority, share, got, m, authority, r != Reused, Model());
    }

    /**
     * resolve. The awaits answer: the probe before acquiring (session path), the probe of a registered
     * transport, its creation, the probe of the previous flow, and everything after that. `got` is the
     * transport it acquired.
     */
    method Resolve(authority: string, share: bool, probeFlow: bool, probeTransport: bool, createOk: bool, probePrev: bool, flowOk: bool)
      returns (r: Outcome, ghost got: Option<nat>)
      requires Good(Model())
      modifies this
      ensures Good(Model())
      ensures var alive := && authority in old(connections) && !old(flows)[old(connections)[authority]].dead
                           && !old(shared)[old(flows)[old(connections)[authority]].shared].dead;
              && (got == if share && probeFlow && alive then None
                         else if share && probeTransport && authority in old(transports) && !old(shared)[old(transports)[authority]].dead
                         then Some(old(transports)[authority])
                         else if createOk then Some(|old(shared)|)
                         else None)
              && (r == if share && probeFlow && alive then Reused
                       else if got == None then Failed
                       else if !share && probePrev && alive then Reused
                       else if flowOk then Attached(|old(flows)|)
                       else Failed)
      ensures r.Attached? ==> FlowAttached(Model(), r.flow) && flows[r.flow] == Flow(got.value, authority, false)
      ensures connections == if r.Attached? then old(connections)[authority := r.flow]
                             else if got.Some? && r == Failed then old(connections) - {authority}
                             else old(connections)
      ensures var sought := share && (r == Reused ==> got.Some?);
              Aftermath(old(Model()), authority, sought, got, authority, got.Some? && r != Reused, Model())
      ensures share && got.Some? ==>
                && (authority in transports <==> !LastOfItsTransport(old(Model()), authority, authority, got))
                && (authority in transports ==> transports[authority] == got.value)
      ensures share && r != Reused && authority in old(transports) && got != Some(old(transports)[authority]) ==>
                shared[old(transports)[authority]].dead && shared[old(transports)[authority]].killed
      ensures Sum(unattached) == Sum(old(unattached)) + if got.Some? && !r.Attached? then 1 else 0
    {
      HealthyRaw(Model(), authority);
      RegistersRaw(Model(), authority);
      r, got := Reach(authority, share, probeFlow, probeTransport, createOk, probePrev, flowOk);
      RuledOutDead(old(Model()), authority, share && (r == Reused ==> got.Some?), got, authority, got.Some? && r != Reused, Model());
      if share && got.Some? {
        RegisteredAfterwards(old(Model()), authority, got, authority, r != Reused, Model());
      }
    }

    method Reach(authority: string, share: bool, probeFlow: bool, probeTransport: bool, createOk: bool, probePrev: bool, flowOk: bool)
      returns (r: Outcome, ghost got: Option<nat>)
      requires Good(Model())
      modifies this
      ensures Good(Model())
      ensures got == if share && probeFlow && Healthy(old(Model()), authority) then None
                     else Sought(old(Model()), authority, share, probeTransport, createOk)
      ensures r == if share && probeFlow && Healthy(old(Model()), authority) then Reused
                   else if got == None then Failed
                   else if !share && probePrev && Healthy(old(Model()), authority) then Reused
                   else if flowOk then Attached(|old(flows)|) else Failed
      ensures r.Attached? ==> FlowAttached(Model(), r.flow) && flows[r.flow] == Flow(got.value, authority, false)
      ensures connections == if r.Attached? then old(connections)[authority := r.flow]
                             else if got.Some? && r == Failed then old(connections) - {authority}
                             else old(connections)
      ensures Aftermath(old(Model()), authority, share && (r == Reused ==> got.Some?), got, authority,
                        got.Some? && r != Reused, Model())
      ensures Sum(unattached) == Sum(old(unattached)) + if got.Some? && !r.Attached? then 1 else 0
    {
      if share {
        r, got := ReachShared(authority, probeFlow, probeTransport, createOk, probePrev, flowOk);
      } else {
        r, got := Connect(authority, share, probeTransport, createOk, probePrev, flowOk);
      }
    }

    method ReachShared(authority: string, probeFlow: bool, probeTransport: bool, createOk: bool, probePrev: bool, flowOk: bool)
      returns (r: Outcome, ghost got: Option<nat>)
      requires Good(Model())
      modifies this
      ensures Good(Model())
      ensures got == if probeFlow && Healthy(old(Model()), authority) then None
                     else Sought(old(Model()), authority, true, probeTransport, createOk)
      ensures r == if probeFlow && Healthy(old(Model()), authority) then Reused
                   else if got == None then Failed
                   else if flowOk then Attached(|old(flows)|) else Failed
      ensures r.Attached? ==> FlowAttached(Model(), r.flow) && flows[r.flow] == Flow(got.value, authority, false)
      ensures connections == if r.Attached? then old(connections)[authority := r.flow]
                             else if got.Some? && r == Failed then old(connections) - {authority}
                             else old(connections)
      ensures Aftermath(old(Model()), authority, r != Reused, got, authority, got.Some?, Model())
      ensures Sum(unattached) == Sum(old(unattached)) + if got.Some? && !r.Attached? then 1 else 0
    {
      ghost var was := Model();
      var reused := TryReuse(authority, probeFlow);
      if reused {
        NoAftermath(was, authority, authority, Model());
        return Reused, None;
      }
      ghost var m := Model();
      r, got := Connect(authority, true, probeTransport, createOk, probePrev, flowOk);
      AftermathOfFlows(was, m, authority, true, got, authority, got.Some?, Model());
    }

    method ResolveExecServer(authority: string, share: bool, probeTransport: bool, createOk: bool)
      returns (r: Outcome, ghost got: Option<nat>)
      requires Good(Model())
      modifies this
      ensures Good(Model())
      ensures got == if share && probeTransport && authority in old(transports) && !old(shared)[old(transports)[authority]].dead then
                       Some(old(transports)[authority])
                     else if createOk then Some(|old(shared)|)
                     else None
      ensures r == if got.Some? then Attached(|old(flows)|) else Failed
      ensures r.Attached? ==>
                FlowAttached(Model(), r.flow) && flows[r.flow] == Flow(got.value, authority + EXEC_SUFFIX, false)
      ensures connections == if r.Attached? then old(connections)[authority + EXEC_SUFFIX := r.flow] else old(connections)
      ensures Aftermath(old(Model()), authority, share, got, authority + EXEC_SUFFIX, got.Some?, Model())
      ensures share && got.Some? ==>
                && (authority in transports <==> !LastOfItsTransport(old(Model()), authority + EXEC_SUFFIX, authority, got))
                && (authority in transports ==> transports[authority] == got.value)
      ensures share && authority in old(transports) && got != Some(old(transports)[authority]) ==>
                shared[old(transports)[authority]].dead && shared[old(transports)[authority]].killed
      ensures Sum(unattached) == Sum(old(unattached))
    {
      RegistersRaw(Model(), authority);
      r, got := Serve(authority, share, probeTransport, createOk);
      RuledOutDead(old(Model()), authority, share, got, authority + EXEC_SUFFIX, got.Some?, Model());
      if share && got.Some? {
        RegisteredAfterwards(old(Model()), authority, got, authority + EXEC_SUFFIX, true, Model());
      }
    }

    method Serve(authority: string, share: bool, probeTransport: bool, createOk: bool) returns (r: Outcome, ghost got: Option<nat>)
      requires Good(Model())
      modifies this
      ensures Good(Model())
      ensures got == Sought(old(Model()), authority, share, probeTransport, createOk)
      ensures r == if got.Some? then Attached(|old(flows)|) else Failed
      ensures r.Attached? ==>
                FlowAttached(Model(), r.flow) && flows[r.flow] == Flow(got.value, authority + EXEC_SUFFIX, false)
      ensures connections == if r.Attached? then old(connections)[authority + EXEC_SUFFIX := r.flow] else old(connections)
      ensures Aftermath(old(Model()), authority, share, got, authority + EXEC_SUFFIX, got.Some?, Model())
      ensures Sum(unattached) == Sum(old(unattached))
    {
      ghost var was := Model();
      var acquired := AcquireTransport(authority, share, probeTransport, createOk);
      got := acquired;
      ghost var m := Model();
      if acquired == None {
        AftermathOf(was, authority, share, got, m, authority + EXEC_SUFFIX, false, m);
        return Failed, None;
      }
      r := Replace(authority + EXEC_SUFFIX, acquired.value, true);
      AftermathOf(was, authority, share, got, m, authority + EXEC_SUFFIX, true, Model());
    }

    method TakeResolve(c: Call) returns (ghost leak: nat)
      requires Good(Model()) && c.Resolve?
      modifies this
      ensures Good(Model()) && Followed(old(Model()), c, Model())
      ensures leak <= 1 && Sum(unattached) == Sum(old(unattached)) + leak
    {
      var r, got := Reach(c.authority, c.share, c.probeFlow, c.probeTransport, c.createOk, c.probePrev, c.flowOk);
      leak := if got.Some? && !r.Attached? then 1 else 0;
      FollowedResolve(old(Model()), c, got, got.Some? && r != Reused, Model());
    }

    /** One call, or a death between calls; the result is the number of references it leaves without a flow. */
    method Take(c: Call) returns (ghost leak: nat)
      requires Good(Model())
      modifies this
      ensures Good(Model()) && Followed(old(Model()), c, Model())
      ensures leak <= 1 && Sum(unattached) == Sum(old(unattached)) + leak
    {
      leak := 0;
      match c
      case Resolve(_, _, _, _, _, _, _) =>
        leak := TakeResolve(c);
      case ExecServer(a, share, probe, createOk) =>
        var _, got := Serve(a, share, probe, createOk);
        FollowedExec(old(Model()), c, got, Model());
      case FlowDeath(f) =>
        if f < |flows| { Death(true, f); }
      case TransportDeath(t) =>
        if t < |shared| { Death(false, t); }
    }

    method DetachOne(ghost was: State, key: string)
      requires Good(Model()) && DetachedTo(was, Model()) && key in connections
      modifies this`shared, this`transports, this`connections
      ensures Good(Model()) && DetachedTo(was, Model()) && connections.Keys == old(connections.Keys) - {key}
    {
      KillKey(Model(), key);
      DetachStep(was, Model(), key);
      Kill(key);
    }

    method DetachAll()
      requires Good(Model())
      modifies this`shared, this`transports, this`connections
      ensures Good(Model()) && connections.Keys == {} && DetachedTo(old(Model()), Model())
    {
      ghost var was := Model();
      NothingDetached(was);
      while connections.Keys != {}
        invariant Good(Model()) && DetachedTo(was, Model())
        decreases |connections.Keys|
      {
        var key :| key in connections.Keys;
        DetachOne(was, key);
      }
    }

    /**
     * Every flow is detached and every registered transport torn down. What is left up is exactly the
     * transports with references that never attached a flow and that are not registered: nor were at
     * first, or a transport of their authority that lost its last flow took the registration with it.
     */
    method Dispose()
      requires Good(Model())
      modifies this
      ensures connections.Keys == {} && transports.Keys == {} && unattached == old(unattached) && |shared| == |unattached| == |old(shared)|
      ensures forall t: nat :: t < |shared| ==> shared[t].attached == {} && shared[t].refs == unattached[t]
      ensures forall t: nat :: t < |shared| ==>
                (!shared[t].killed <==>
                   && !old(shared)[t].killed && old(unattached)[t] > 0
                   && (old(shared)[t].authority in old(transports) && old(transports)[old(shared)[t].authority] == t ==>
                         exists u: nat :: u < |old(shared)| && old(shared)[u].authority == old(shared)[t].authority
                                          && old(unattached)[u] == 0 && old(shared)[u].attached != {}))
    {
      ghost var was := Model();
      DetachAll();
      NoFlows(Model());
      ghost var detached := Model();
      TearDownRegistered();
      forall t: nat | t < |shared|
        ensures !shared[t].killed <==> LeftUp(was, t)
      {
        LeftUpExactly(was, detached, t);
      }
    }

    method TearDown(authority: string)
      requires authority in transports && transports[authority] < |shared|
      modifies this`shared, this`transports
      ensures shared == old(shared)[old(transports)[authority] := old(shared)[old(transports)[authority]].(killed := true)]
      ensures transports == old(transports) - {authority}
    {
      var t := transports[authority];
      shared := shared[t := shared[t].(killed := true)];
      transports := transports - {authority};
    }

    method TearDownRegistered()
      requires Registered(Model())
      modifies this`shared, this`transports
      ensures transports.Keys == {} && |shared| == |old(shared)|
      ensures forall t: nat :: t < |shared| ==>
                shared[t] == old(shared)[t].(killed := old(shared)[t].killed || IsRegistered(old(Model()), t))
    {
      ghost var was := Model();
      while transports.Keys != {}
        invariant TornSoFar(was, shared, transports)
        decreases |transports.Keys|
      {
        var a :| a in transports.Keys;
        TearStep(was, shared, transports, a);
        ghost var keys := transports.Keys;
        TearDown(a);
        assert transports.Keys == keys - {a};
      }
    }
  }

  /** Exactly the transports whose authority is no longer in the map have been torn down. */
  ghost predicate TornSoFar(was: State, shared: seq<Shared>, transports: map<string, nat>) {
    && |shared| == |was.shared|
    && (forall a :: a in transports ==>
          && a in was.transports && transports[a] == was.transports[a]
          && transports[a] < |was.shared| && was.shared[transports[a]].authority == a)
    && (forall t: nat :: t < |shared| ==>
          shared[t] == was.shared[t].(killed :=
            was.shared[t].killed || (IsRegistered(was, t) && was.shared[t].authority !in transports)))
  }

  lemma TearStep(was: State, shared: seq<Shared>, transports: map<string, nat>, a: string)
    requires TornSoFar(was, shared, transports) && a in transports
    ensures TornSoFar(was, shared[transports[a] := shared[transports[a]].(killed := true)], transports - {a})
  {
  }

  /** What detaching flows, all of those of one transport among them, did to each transport and the map. */
  ghost predicate Lost(was: State, s: State, t: nat) {
    && t < |was.shared| && t < |s.shared| && t < |was.unattached| && was.unattached[t] == 0
    && was.shared[t].attached != {} && s.shared[t].attached == {}
  }

  ghost predicate LostFor(was: State, s: State, authority: string) {
    exists t: nat :: Lost(was, s, t) && was.shared[t].authority == authority
  }

  ghost predicate DetachedTo(was: State, s: State) {
    && |s.shared| == |was.shared| && s.unattached == was.unattached
    && (forall t: nat :: t < |s.shared| ==>
          && s.shared[t].authority == was.shared[t].authority && s.shared[t].attached <= was.shared[t].attached
          && (s.shared[t].killed <==> was.shared[t].killed || Lost(was, s, t)))
    && (forall a :: a in s.transports <==> a in was.transports && !LostFor(was, s, a))
    && (forall a :: a in s.transports ==> s.transports[a] == was.transports[a])
  }

  lemma NothingDetached(s: State)
    ensures DetachedTo(s, s)
  {
  }

  lemma KillKey(s: State, key: string)
    requires Good(s) && key in s.connections
    ensures FlowAttached(s, s.connections[key]) && KillConnection(s, key).connections.Keys == s.connections.Keys - {key}
  {
  }

  lemma DetachStep(was: State, s: State, key: string)
    requires Good(s) && DetachedTo(was, s) && key in s.connections
    ensures DetachedTo(was, KillConnection(s, key))
  {
    var k, f := KillConnection(s, key), s.connections[key];
    assert FlowAttached(s, f);
    var t := s.flows[f].shared;
    assert f in s.shared[t].attached && |s.shared[t].attached - {f}| == |s.shared[t].attached| - 1;
    assert s.shared[t].refs <= 1 <==> Lost(was, k, t);
    forall u: nat
      ensures Lost(was, k, u) <==> Lost(was, s, u) || (u == t && s.shared[t].refs <= 1)
    {
    }
    forall a: string
      ensures LostFor(was, k, a) <==> LostFor(was, s, a) || (s.shared[t].refs <= 1 && a == s.shared[t].authority)
    {
      if s.shared[t].refs <= 1 && a == s.shared[t].authority {
        assert Lost(was, k, t);
      }
      if u: nat :| Lost(was, s, u) && was.shared[u].authority == a {
        assert Lost(was, k, u);
      }
    }
  }

  predicate IsRegistered(s: State, t: nat) {
    t < |s.shared| && s.shared[t].authority in s.transports && s.transports[s.shared[t].authority] == t
  }

  /** Dispose will not tear this transport down. */
  ghost predicate LeftUp(s: State, t: nat) {
    && t < |s.shared| == |s.unattached| && !s.shared[t].killed && s.unattached[t] > 0
    && (IsRegistered(s, t) ==>
          exists u: nat :: u < |s.shared| && s.shared[u].authority == s.shared[t].authority
                           && s.unattached[u] == 0 && s.shared[u].attached != {})
  }

  lemma LeftUpExactly(was: State, s: State, t: nat)
    requires Good(was) && Good(s) && DetachedTo(was, s) && s.connections.Keys == {} && t < |s.shared|
    ensures !s.shared[t].killed && !IsRegistered(s, t) <==> LeftUp(was, t)
  {
    NoFlows(s);
    assert forall u: nat :: u < |s.shared| ==> s.shared[u].attached == {};
    assert Lost(was, s, t) <==> was.unattached[t] == 0 && was.shared[t].attached != {};
    if was.unattached[t] == 0 && !was.shared[t].killed {
      assert was.shared[t].attached != {};
    }
    var a := was.shared[t].authority;
    assert LostFor(was, s, a) <==>
           exists u: nat :: u < |was.shared| && was.shared[u].authority == a && was.unattached[u] == 0 && was.shared[u].attached != {} by {
      if u: nat :| u < |was.shared| && was.shared[u].authority == a && was.unattached[u] == 0 && was.shared[u].attached != {} {
        assert Lost(was, s, u);
      }
    }
  }

  lemma NoFlows(s: State)
    requires Good(s) && s.connections.Keys == {}
    ensures forall t: nat :: t < |s.shared| ==> s.shared[t].attached == {} && s.shared[t].refs == s.unattached[t]
  {
    assert forall k :: k !in s.connections;
    forall t: nat | t < |s.shared|
      ensures s.shared[t].attached == {}
    {
    }
  }

  // --- all runs ---

  datatype Call =
    | Resolve(authority: string, share: bool, probeFlow: bool, probeTransport: bool, createOk: bool, probePrev: bool, flowOk: bool)
    | ExecServer(authority: string, share: bool, probeTransport: bool, createOk: bool)
    | FlowDeath(f: nat)
    | TransportDeath(t: nat)

  /** A transport whose only user is the one flow there is has one reference. */
  lemma OnlyUser(s: State, authority: string)
    requires Good(s) && |s.shared| == 1 && Sum(s.unattached) == 0 && s.connections.Keys == {authority}
    requires FlowAttached(s, s.connections[authority])
    ensures s.shared[0].refs == 1 && s.flows[s.connections[authority]].shared == 0
  {
    SumSnoc([], s.unattached[0]);
    assert [] + [s.unattached[0]] == s.unattached;
    assert s.shared[0].attached == {s.connections[authority]};
  }

  /**
   * So a reconnect leaves the authority without a registration: the first transport dies, the second resolve
   * registers a new one, and dropping the old flow takes that registration away.
   */
  method ReconnectUnregisters(authority: string) returns (resolver: Resolver)
    ensures fresh(resolver) && Good(resolver.Model()) && authority !in resolver.transports
    ensures |resolver.shared| == 2 && !resolver.shared[1].dead && !resolver.shared[1].killed
    ensures resolver.shared[1].authority == authority
    ensures authority in resolver.connections && FlowAttached(resolver.Model(), resolver.connections[authority])
    ensures resolver.flows[resolver.connections[authority]] == Flow(1, authority, false)
  {
    resolver := new Resolver();
    var first, _ := resolver.Resolve(authority, true, true, true, true, true, true);
    OnlyUser(resolver.Model(), authority);
    resolver.Death(false, 0);
    var second, got := resolver.Resolve(authority, true, true, true, true, true, true);
  }

  /** What a call makes of the transports, told by the fields before it and the answers it gets. */
  ghost predicate Followed(s: State, c: Call, n: State)
    requires Good(s)
  {
    match c
    case Resolve(a, share, probeFlow, probe, createOk, probePrev, _) =>
      assert a in s.connections ==> FlowAttached(s, s.connections[a]);
      var alive := a in s.connections && !s.flows[s.connections[a]].dead && !s.shared[s.flows[s.connections[a]].shared].dead;
      var early := share && probeFlow && alive;
      var got := if early then None
                 else if share && probe && a in s.transports && !s.shared[s.transports[a]].dead then Some(s.transports[a])
                 else if createOk then Some(|s.shared|) else None;
      Aftermath(s, a, share && !early, got, a, got.Some? && (share || !probePrev || !alive), n)
    case ExecServer(a, share, probe, createOk) =>
      var got := if share && probe && a in s.transports && !s.shared[s.transports[a]].dead then Some(s.transports[a])
                 else if createOk then Some(|s.shared|) else None;
      Aftermath(s, a, share, got, a + EXEC_SUFFIX, got.Some?, n)
    case FlowDeath(_) => n.shared == s.shared && n.transports == s.transports
    case TransportDeath(t) =>
      && n.transports == s.transports
      && n.shared == if t < |s.shared| then s.shared[t := s.shared[t].(dead := true)] else s.shared
  }

  lemma FollowedResolve(s: State, c: Call, got: Option<nat>, dropped: bool, n: State)
    requires Good(s) && c.Resolve?
    requires var early := c.share && c.probeFlow && Healthy(s, c.authority);
             && got == (if early then None else Sought(s, c.authority, c.share, c.probeTransport, c.createOk))
             && dropped == (got.Some? && (c.share || !c.probePrev || !Healthy(s, c.authority)))
             && Aftermath(s, c.authority, c.share && !early, got, c.authority, dropped, n)
    ensures Followed(s, c, n)
  {
    HealthyRaw(s, c.authority);
    RegistersRaw(s, c.authority);
  }

  lemma FollowedExec(s: State, c: Call, got: Option<nat>, n: State)
    requires Good(s) && c.ExecServer? && got == Sought(s, c.authority, c.share, c.probeTransport, c.createOk)
    requires Aftermath(s, c.authority, c.share, got, c.authority + EXEC_SUFFIX, got.Some?, n)
    ensures Followed(s, c, n)
  {
    RegistersRaw(s, c.authority);
  }

  /** Torn down is for good. */
  ghost predicate KilledStays(s: State, n: State) {
    |s.shared| <= |n.shared| && forall t: nat :: t < |s.shared| && s.shared[t].killed ==> n.shared[t].killed
  }

  /** A call on the session path that reuses neither flow nor transport leaves the registered one dead and torn down. */
  ghost predicate DeadTornDown(s: State, c: Call, n: State)
    requires Good(s)
  {
    (c.Resolve? || c.ExecServer?) && c.share && c.authority in s.transports ==>
      var t := s.transports[c.authority];
      && t < |s.shared| && t < |n.shared|
      && (s.shared[t].dead || !c.probeTransport ==>
            || (n.shared[t].dead && n.shared[t].killed)
            || (&& c.Resolve? && c.probeFlow && c.authority in s.connections
                && FlowAttached(s, s.connections[c.authority]) && !s.flows[s.connections[c.authority]].dead
                && !s.shared[s.flows[s.connections[c.authority]].shared].dead))
  }

  /** A call between two states of a run. */
  ghost predicate OneStep(s: State, c: Call, n: State) {
    Good(s) && Followed(s, c, n) && KilledStays(s, n) && DeadTornDown(s, c, n)
  }

  ghost predicate Chain(calls: seq<Call>, states: seq<State>) {
    && |states| == |calls| + 1 && states[0] == State(map[], map[], [], [], [])
    && forall i: nat :: i < |calls| ==> OneStep(states[i], calls[i], states[i + 1])
  }

  lemma ChainSnoc(calls: seq<Call>, states: seq<State>, c: Call, n: State)
    requires Chain(calls, states) && Good(states[|calls|]) && Followed(states[|calls|], c, n)
    ensures Chain(calls + [c], states + [n])
  {
    FollowedSays(states[|calls|], c, n);
    var more, last := states + [n], calls + [c];
    forall i: nat | i < |last|
      ensures OneStep(more[i], last[i], more[i + 1])
    {
      if i < |calls| {
        assert OneStep(states[i], calls[i], states[i + 1]);
      }
    }
  }

  /** What holds after a run: no transport is registered once torn down, or torn down alive and in use. */
  lemma GoodSays(s: State)
    requires Good(s)
    ensures forall a :: a in s.transports ==>
              && s.transports[a] < |s.shared| && s.shared[s.transports[a]].authority == a && !s.shared[s.transports[a]].killed
    ensures forall f: nat :: FlowAttached(s, f) && !s.shared[s.flows[f].shared].dead ==> !s.shared[s.flows[f].shared].killed
  {
    forall f: nat | FlowAttached(s, f) && !s.shared[s.flows[f].shared].dead
      ensures !s.shared[s.flows[f].shared].killed
    {
      NeverTornDownInUse(s, f);
    }
  }

  lemma FollowedSays(s: State, c: Call, n: State)
    requires Good(s) && Followed(s, c, n)
    ensures KilledStays(s, n) && DeadTornDown(s, c, n)
  {
    if c.Resolve? && c.authority in s.connections {
      assert FlowAttached(s, s.connections[c.authority]);
    }
  }

  /**
   * Every run of operations that do not overlap, with the state after each: what each call makes of the
   * transports; a transport torn down stays so, and none is registered then; each transport's references
   * are its flows plus its acquires without one; over all transports the latter are the resolves that got
   * a transport and attached nothing to it; and no transport that is alive and has a flow was torn down.
   */
  method Run(calls: seq<Call>) returns (resolver: Resolver, ghost leaked: nat, ghost states: seq<State>)
    ensures fresh(resolver) && Good(resolver.Model()) && leaked <= |calls|
    ensures |states| == |calls| + 1 && states[0] == State(map[], map[], [], [], []) && states[|calls|] == resolver.Model()
    ensures forall i: nat :: i < |calls| ==> OneStep(states[i], calls[i], states[i + 1])
    ensures forall a :: a in resolver.transports ==>
              && resolver.transports[a] < |resolver.shared| && resolver.shared[resolver.transports[a]].authority == a
              && !resolver.shared[resolver.transports[a]].killed
    ensures RefsCounted(resolver.Model())
    ensures Sum(Refs(resolver.shared)) == |resolver.connections| + leaked
    ensures forall f: nat :: FlowAttached(resolver.Model(), f) && !resolver.shared[resolver.flows[f].shared].dead ==>
              !resolver.shared[resolver.flows[f].shared].killed
  {
    resolver := new Resolver();
    leaked, states := 0, [resolver.Model()];
    for i := 0 to |calls|
      invariant fresh(resolver) && Good(resolver.Model())
      invariant Sum(resolver.unattached) == leaked <= i
      invariant Chain(calls[..i], states) && states[i] == resolver.Model()
    {
      var leak := resolver.Take(calls[i]);
      ChainSnoc(calls[..i], states, calls[i], resolver.Model());
      assert calls[..i] + [calls[i]] == calls[..i + 1];
      leaked, states := leaked + leak, states + [resolver.Model()];
    }
    assert calls[..|calls|] == calls;
    RefsConserved(resolver.Model());
    GoodSays(resolver.Model());
  }
}
