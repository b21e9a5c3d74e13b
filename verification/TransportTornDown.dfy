/**
 * What transports the callers of acquireTransport are handed: one of their own authority, and one that is
 * torn down exactly under conditions stated here. Interleavings are those of TransportAcquire.
 */
module TransportTornDown {
  import opened Basics
  import opened TransportAcquire

  // --- what an acquirer may find torn down ---

  ghost predicate RegisteredUp(s: State) {
    forall k :: k in s.registered ==>
      s.registered[k] < |s.transports| && s.transports[s.registered[k]].authority == k && !s.transports[s.registered[k]].killed
  }

  /** Everyone deals with transports and creations of their own authority. */
  ghost predicate Matched(s: State) {
    && (forall i: nat :: i < |s.callers| ==>
          match s.callers[i].pc
          case Probing(t) => t < |s.transports| && s.transports[t].authority == s.callers[i].authority
          case Has(t) => t < |s.transports| && s.transports[t].authority == s.callers[i].authority
          case Waiting(c) => c < |s.creations| && s.creations[c].authority == s.callers[i].authority
          case _ => true)
    && (forall c: nat :: c < |s.creations| && s.creations[c].result.Made? ==>
          s.creations[c].result.t < |s.transports| && s.transports[s.creations[c].result.t].authority == s.creations[c].authority)
  }

  ghost predicate MadeOnce(s: State) {
    forall c: nat, d: nat :: c < d < |s.creations| && s.creations[c].result.Made? ==> s.creations[d].result != s.creations[c].result
  }

  /** A transport made and not yet handed to its creator. */
  predicate Unpublished(s: State, i: nat, t: nat) {
    && i < |s.callers| && s.callers[i].pc.Creating?
    && s.callers[i].pc.c < |s.creations| && s.creations[s.callers[i].pc.c].result == Made(t)
  }

  ghost predicate UnpublishedUp(s: State) {
    forall i: nat, t: nat :: Unpublished(s, i, t) ==>
      && t < |s.transports| && !s.transports[t].killed
      && (forall k :: k in s.registered ==> s.registered[k] != t)
      && (forall j: nat :: j < |s.callers| ==> s.callers[j].pc != Probing(t))
  }

  ghost predicate Upright(s: State) {
    RegisteredUp(s) && Matched(s) && MadeOnce(s) && UnpublishedUp(s)
  }

  ghost predicate Published(s: State, t: nat) {
    forall i: nat :: !Unpublished(s, i, t)
  }

  lemma TearDownUpright(s: State, t: nat, authority: string)
    requires Upright(s) && t < |s.transports| && s.transports[t].authority == authority && Published(s, t)
    ensures Upright(TearDown(s, t, authority))
  {
    var u := TearDown(s, t, authority);
    assert forall i: nat, v: nat :: Unpublished(u, i, v) <==> Unpublished(s, i, v);
  }

  lemma DieUpright(s: State, t: nat)
    requires Upright(s) && t < |s.transports|
    ensures Upright(SetTransport(s, t, s.transports[t].(dead := true)))
  {
    var u := SetTransport(s, t, s.transports[t].(dead := true));
    assert forall i: nat, v: nat :: Unpublished(u, i, v) <==> Unpublished(s, i, v);
  }

  lemma StartUpright(s: State, i: nat)
    requires Upright(s) && i < |s.callers|
    ensures Upright(Start(s, i))
  {
    var u := Start(s, i);
    assert forall j: nat, v: nat :: Unpublished(u, j, v) ==> j != i && Unpublished(s, j, v);
  }

  lemma SetPcUpright(s: State, i: nat, pc: Pc)
    requires Upright(s) && i < |s.callers|
    requires match pc
             case Probing(t) => t < |s.transports| && s.transports[t].authority == s.callers[i].authority && Published(s, t)
             case Has(t) => t < |s.transports| && s.transports[t].authority == s.callers[i].authority
             case Waiting(c) => c < |s.creations| && s.creations[c].authority == s.callers[i].authority
             case Gone => true
             case _ => false
    ensures Upright(SetPc(s, i, pc))
  {
    var u := SetPc(s, i, pc);
    assert forall j: nat, v: nat :: Unpublished(u, j, v) ==> j != i && Unpublished(s, j, v);
  }

  lemma AddRefUpright(s: State, t: nat, refs: int)
    requires Upright(s) && t < |s.transports|
    ensures Upright(SetTransport(s, t, s.transports[t].(refs := refs)))
  {
    var u := SetTransport(s, t, s.transports[t].(refs := refs));
    assert forall i: nat, v: nat :: Unpublished(u, i, v) <==> Unpublished(s, i, v);
  }

  lemma JoinOrCreateUpright(s: State, i: nat, existing: Option<nat>)
    requires Inv(s) && Upright(s) && i < |s.callers|
    requires existing.Some? ==> && existing.value < |s.transports| && Published(s, existing.value)
                                && s.transports[existing.value].authority == s.callers[i].authority
    ensures Upright(JoinOrCreate(s, i, existing))
  {
    var authority := s.callers[i].authority;
    if authority in s.promises {
      SetPcUpright(s, i, Waiting(s.promises[authority]));
    } else if existing == None {
      StartUpright(s, i);
    } else {
      TearDownUpright(s, existing.value, authority);
      StartUpright(TearDown(s, existing.value, authority), i);
    }
  }

  lemma EnterUpright(s: State, i: nat)
    requires Inv(s) && Upright(s) && i < |s.callers|
    ensures Upright(Enter(s, i))
  {
    var authority := s.callers[i].authority;
    if authority in s.registered && !s.transports[s.registered[authority]].dead {
      SetPcUpright(s, i, Probing(s.registered[authority]));
    } else {
      JoinOrCreateUpright(s, i, if authority in s.registered then Some(s.registered[authority]) else None);
    }
  }

  lemma SettleUpright(s: State, c: nat, ok: bool)
    requires Inv(s) && Upright(s) && Enabled(s, Settle(c, ok))
    ensures Upright(Apply(s, Settle(c, ok)))
  {
    var u := Apply(s, Settle(c, ok));
    assert forall i: nat, v: nat :: Unpublished(u, i, v) && v != |s.transports| ==> Unpublished(s, i, v);
  }

  lemma PromisesUpright(s: State, promises: map<string, nat>)
    requires Upright(s)
    ensures Upright(s.(promises := promises))
  {
    assert forall i: nat, v: nat :: Unpublished(s.(promises := promises), i, v) <==> Unpublished(s, i, v);
  }

  /** A creator is handed what it made, which becomes the registered transport. */
  lemma PublishUpright(s: State, i: nat, t: nat)
    requires Upright(s) && Unpublished(s, i, t) && s.creations[s.callers[i].pc.c].authority == s.callers[i].authority
    requires forall j: nat :: Unpublished(s, j, t) ==> j == i
    ensures Upright(SetPc(s.(registered := s.registered[s.callers[i].authority := t]), i, Has(t)))
  {
    var u := SetPc(s.(registered := s.registered[s.callers[i].authority := t]), i, Has(t));
    assert forall j: nat, v: nat :: Unpublished(u, j, v) ==> j != i && Unpublished(s, j, v);
  }

  lemma OneCreator(s: State, i: nat, t: nat)
    requires Creators(s) && MadeOnce(s) && Unpublished(s, i, t)
    ensures forall j: nat :: Unpublished(s, j, t) ==> j == i
  {
    forall j: nat | Unpublished(s, j, t)
      ensures j == i
    {
      assert s.callers[j].pc.c == s.callers[i].pc.c;
    }
  }

  lemma CreatorUpright(s: State, i: nat)
    requires Inv(s) && Upright(s) && Enabled(s, Resume(i)) && s.callers[i].pc.Creating?
    ensures Upright(Apply(s, Resume(i)))
  {
    var done := s.(promises := s.promises - {s.callers[i].authority});
    PromisesUpright(s, done.promises);
    match s.creations[s.callers[i].pc.c].result
    case Made(t) =>
      OneCreator(s, i, t);
      assert forall j: nat :: Unpublished(done, j, t) <==> Unpublished(s, j, t);
      PublishUpright(done, i, t);
    case Failed => SetPcUpright(done, i, Gone);
  }

  lemma TakeRefUpright(s: State, i: nat, t: nat)
    requires Upright(s) && i < |s.callers| && t < |s.transports| && s.transports[t].authority == s.callers[i].authority
    ensures Upright(SetPc(AddRef(s, t), i, Has(t)))
  {
    AddRefUpright(s, t, s.transports[t].refs + 1);
    SetPcUpright(AddRef(s, t), i, Has(t));
  }

  lemma DropUpright(s: State, i: nat, t: nat)
    requires Upright(s) && i < |s.callers| && t < |s.transports|
    ensures Upright(Dropped(s, i, t))
  {
    var x := s.transports[t].(refs := s.transports[t].refs - 1);
    AddRefUpright(s, t, x.refs);
    SetPcUpright(SetTransport(s, t, x), i, Gone);
  }

  lemma ReleaseUpright(s: State, i: nat)
    requires Inv(s) && Upright(s) && Enabled(s, Release(i))
    ensures Upright(Apply(s, Release(i)))
  {
    var t := s.callers[i].pc.t;
    ReleaseIs(s, i, t);
    DropUpright(s, i, t);
    DropRefKeeps(s, i);
    if s.transports[t].refs <= 1 {
      EmptiedUpright(Dropped(s, i, t), t, s.transports[t].authority);
    }
  }

  lemma ReleaseIs(s: State, i: nat, t: nat)
    requires InRange(s) && Enabled(s, Release(i)) && s.callers[i].pc == Has(t)
    ensures Apply(s, Release(i)) ==
              if s.transports[t].refs <= 1 then TearDown(Dropped(s, i, t), t, s.transports[t].authority) else Dropped(s, i, t)
    ensures |Dropped(s, i, t).transports| == |s.transports| && Dropped(s, i, t).transports[t].refs == s.transports[t].refs - 1
    ensures Dropped(s, i, t).transports[t].authority == s.transports[t].authority
  {
  }

  lemma EmptiedUpright(s: State, t: nat, authority: string)
    requires Inv(s) && Upright(s) && t < |s.transports| && s.transports[t].refs <= 0 && s.transports[t].authority == authority
    ensures Upright(TearDown(s, t, authority))
  {
    UnownedPublished(s, t);
    TearDownUpright(s, t, authority);
  }

  lemma UnownedPublished(s: State, t: nat)
    requires Inv(s) && t < |s.transports| && s.transports[t].refs <= 0
    ensures Published(s, t)
  {
    OwnersSome(s, t, |s.callers|);
    assert forall j: nat :: Unpublished(s, j, t) ==> Owns(s, j, t);
  }

  lemma UprightStep(s: State, a: Action)
    requires Inv(s) && Upright(s) && Enabled(s, a)
    ensures Upright(Apply(s, a))
  {
    match a
    case Begin(i) => EnterUpright(s, i);
    case Probed(i, alive) =>
      var t := s.callers[i].pc.t;
      if alive {
        TakeRefUpright(s, i, t);
      } else {
        MarkKeeps(s, t, s.transports[t].(dead := true));
        DieUpright(s, t);
        JoinOrCreateUpright(SetTransport(s, t, s.transports[t].(dead := true)), i, Some(t));
      }
    case Settle(c, ok) => SettleUpright(s, c, ok);
    case Resume(i) =>
      if s.callers[i].pc.Creating? {
        CreatorUpright(s, i);
      } else {
        var r := s.creations[s.callers[i].pc.c].result;
        if r == Failed {
          SetPcUpright(s, i, Gone);
        } else if s.transports[r.t].dead {
          EnterUpright(s, i);
        } else {
          TakeRefUpright(s, i, r.t);
        }
      }
    case Die(t) => DieUpright(s, t);
    case Release(i) => ReleaseUpright(s, i);
  }

  lemma {:induction false} UprightRun(authorities: seq<string>, run: seq<Action>, states: seq<State>, k: nat)
    requires Run(authorities, run, states) && k <= |run|
    ensures Upright(states[k])
  {
    if k > 0 {
      UprightRun(authorities, run, states, k - 1);
      OneStep(authorities, run, states, k - 1);
      UprightStep(states[k - 1], run[k - 1]);
    }
  }

  // --- exactly when ---

  predicate TornDown(s: State, t: nat) {
    t < |s.transports| && s.transports[t].killed
  }

  /** A release of the last reference. */
  predicate Empties(s: State, a: Action, t: nat) {
    && a.Release? && a.a < |s.callers| && s.callers[a.a].pc == Has(t)
    && t < |s.transports| && s.transports[t].refs <= 1
  }

  /** A caller that rules out a dead transport, or one whose probe failed, and starts anew. */
  predicate RulesOut(s: State, a: Action, t: nat) {
    match a
    case Begin(i) => i < |s.callers| && FindsDead(s, s.callers[i].authority, t)
    case Probed(i, alive) =>
      !alive && i < |s.callers| && s.callers[i].pc == Probing(t) && s.callers[i].authority !in s.promises
    case Resume(i) =>
      && i < |s.callers| && s.callers[i].pc.Waiting? && s.callers[i].pc.c < |s.creations|
      && s.creations[s.callers[i].pc.c].result.Made?
      && var made := s.creations[s.callers[i].pc.c].result.t;
         made < |s.transports| && s.transports[made].dead && FindsDead(s, s.callers[i].authority, t)
    case _ => false
  }

  predicate FindsDead(s: State, authority: string, t: nat) {
    && authority in s.registered && s.registered[authority] == t
    && t < |s.transports| && s.transports[t].dead && authority !in s.promises
  }

  predicate TearsDown(s: State, a: Action, t: nat) {
    Empties(s, a, t) || RulesOut(s, a, t)
  }

  lemma JoinTearsDown(s: State, i: nat, existing: Option<nat>, t: nat)
    requires i < |s.callers| && (existing.Some? ==> existing.value < |s.transports|)
    ensures TornDown(JoinOrCreate(s, i, existing), t)
       <==> TornDown(s, t) || (existing == Some(t) && s.callers[i].authority !in s.promises)
  {
  }

  lemma EnterTearsDown(s: State, i: nat, t: nat)
    requires InRange(s) && i < |s.callers|
    ensures TornDown(Enter(s, i), t) <==> TornDown(s, t) || FindsDead(s, s.callers[i].authority, t)
  {
    var authority := s.callers[i].authority;
    if !(authority in s.registered && !s.transports[s.registered[authority]].dead) {
      JoinTearsDown(s, i, if authority in s.registered then Some(s.registered[authority]) else None, t);
    }
  }

  lemma BeginTearsDown(s: State, i: nat, t: nat)
    requires InRange(s) && Enabled(s, Begin(i))
    ensures TornDown(Apply(s, Begin(i)), t) <==> TornDown(s, t) || TearsDown(s, Begin(i), t)
  {
    EnterTearsDown(s, i, t);
  }

  lemma ProbedTearsDown(s: State, i: nat, alive: bool, t: nat)
    requires InRange(s) && Enabled(s, Probed(i, alive))
    ensures TornDown(Apply(s, Probed(i, alive)), t) <==> TornDown(s, t) || TearsDown(s, Probed(i, alive), t)
  {
    if !alive {
      var u := s.callers[i].pc.t;
      JoinTearsDown(SetTransport(s, u, s.transports[u].(dead := true)), i, Some(u), t);
    }
  }

  lemma ResumeTearsDown(s: State, i: nat, t: nat)
    requires InRange(s) && Enabled(s, Resume(i))
    ensures TornDown(Apply(s, Resume(i)), t) <==> TornDown(s, t) || TearsDown(s, Resume(i), t)
  {
    if s.callers[i].pc.Waiting? && s.creations[s.callers[i].pc.c].result.Made? {
      EnterTearsDown(s, i, t);
    }
  }

  lemma ReleaseTearsDown(s: State, i: nat, t: nat)
    requires InRange(s) && Enabled(s, Release(i))
    ensures TornDown(Apply(s, Release(i)), t) <==> TornDown(s, t) || TearsDown(s, Release(i), t)
  {
  }

  lemma SettleTearsDown(s: State, c: nat, ok: bool, t: nat)
    requires InRange(s) && Enabled(s, Settle(c, ok))
    ensures TornDown(Apply(s, Settle(c, ok)), t) <==> TornDown(s, t)
  {
  }

  lemma DieTearsDown(s: State, u: nat, t: nat)
    requires InRange(s) && Enabled(s, Die(u))
    ensures TornDown(Apply(s, Die(u)), t) <==> TornDown(s, t)
  {
  }

  lemma TornDownStep(s: State, a: Action, t: nat)
    requires InRange(s) && Enabled(s, a)
    ensures TornDown(Apply(s, a), t) <==> TornDown(s, t) || TearsDown(s, a, t)
  {
    match a
    case Begin(i) => BeginTearsDown(s, i, t);
    case Probed(i, alive) => ProbedTearsDown(s, i, alive, t);
    case Settle(c, ok) => SettleTearsDown(s, c, ok, t);
    case Resume(i) => ResumeTearsDown(s, i, t);
    case Die(u) => DieTearsDown(s, u, t);
    case Release(i) => ReleaseTearsDown(s, i, t);
  }

  lemma RuledOutDead(s: State, a: Action, t: nat)
    requires InRange(s) && Enabled(s, a) && RulesOut(s, a, t)
    ensures t < |Apply(s, a).transports| && Apply(s, a).transports[t].dead
  {
  }

  /** One step of the run between p and q tore the transport down. */
  ghost predicate TornDownBetween(run: seq<Action>, states: seq<State>, p: nat, q: nat, t: nat)
    requires q <= |run| && |states| == |run| + 1
  {
    exists k: nat :: p <= k < q && TearsDown(states[k], run[k], t)
  }

  ghost predicate EmptiedBetween(run: seq<Action>, states: seq<State>, p: nat, q: nat, t: nat)
    requires q <= |run| && |states| == |run| + 1
  {
    exists k: nat :: p <= k < q && Empties(states[k], run[k], t)
  }

  lemma BetweenSnoc(run: seq<Action>, states: seq<State>, p: nat, q: nat, t: nat)
    requires p < q <= |run| && |states| == |run| + 1
    ensures TornDownBetween(run, states, p, q, t)
       <==> TornDownBetween(run, states, p, q - 1, t) || TearsDown(states[q - 1], run[q - 1], t)
  {
  }

  lemma {:induction false} TornDownHow(authorities: seq<string>, run: seq<Action>, states: seq<State>, p: nat, q: nat, t: nat)
    requires Run(authorities, run, states) && p <= q <= |run| && !TornDown(states[p], t)
    ensures TornDown(states[q], t) <==> TornDownBetween(run, states, p, q, t)
    decreases q - p
  {
    if p < q {
      TornDownHow(authorities, run, states, p, q - 1, t);
      assert Leads(states[q - 1], run[q - 1], states[q - 1 + 1]);
      TornDownStep(states[q - 1], run[q - 1], t);
      BetweenSnoc(run, states, p, q, t);
    }
  }

  /** Between two states, one that is not dead can only have been emptied. */
  lemma {:induction false} EmptiedIfAlive(authorities: seq<string>, run: seq<Action>, states: seq<State>, p: nat, q: nat, t: nat)
    requires Run(authorities, run, states) && p <= q <= |run| && t < |states[q].transports| && !states[q].transports[t].dead
    ensures TornDownBetween(run, states, p, q, t) <==> EmptiedBetween(run, states, p, q, t)
  {
    forall k: nat | p <= k < q
      ensures !RulesOut(states[k], run[k], t)
    {
      if RulesOut(states[k], run[k], t) {
        OneStep(authorities, run, states, k);
        RuledOutDead(states[k], run[k], t);
        DeadLater(authorities, run, states, k + 1, q, t);
      }
    }
  }

  /** A caller has just begun to probe the transport, or to wait for its creation. */
  ghost predicate Enters(states: seq<State>, run: seq<Action>, p: nat, i: nat)
    requires |states| == |run| + 1
  {
    && 0 < p <= |run| && Acts(run[p - 1], i)
    && i < |states[p].callers| && (states[p].callers[i].pc.Probing? || states[p].callers[i].pc.Waiting?)
  }

  /** It found the transport registered, or the creation in flight. */
  predicate Found(s: State, i: nat) {
    && i < |s.callers|
    && var authority := s.callers[i].authority;
       match s.callers[i].pc
       case Probing(t) => authority in s.registered && s.registered[authority] == t
       case Waiting(c) => authority in s.promises && s.promises[authority] == c
       case _ => true
  }

  lemma JoinFinds(s: State, i: nat, existing: Option<nat>)
    requires i < |s.callers| && (existing.Some? ==> existing.value < |s.transports|)
    ensures Found(JoinOrCreate(s, i, existing), i)
  {
  }

  lemma EnterFinds(s: State, i: nat)
    requires InRange(s) && i < |s.callers|
    ensures Found(Enter(s, i), i)
  {
    var authority := s.callers[i].authority;
    if !(authority in s.registered && !s.transports[s.registered[authority]].dead) {
      JoinFinds(s, i, if authority in s.registered then Some(s.registered[authority]) else None);
    }
  }

  lemma EntersFinding(s: State, a: Action, i: nat)
    requires InRange(s) && Enabled(s, a) && Acts(a, i) && i < |s.callers|
    ensures Found(Apply(s, a), i)
  {
    match a
    case Begin(_) => EnterFinds(s, i);
    case Probed(_, alive) =>
      if !alive {
        var t := s.callers[i].pc.t;
        JoinFinds(SetTransport(s, t, s.transports[t].(dead := true)), i, Some(t));
      }
    case Resume(_) =>
      if s.callers[i].pc.Waiting? && s.creations[s.callers[i].pc.c].result.Made? {
        EnterFinds(s, i);
      }
    case _ =>
  }

  /** What is found is up, as far as it is there. */
  lemma FoundUp(s: State, i: nat)
    requires Inv(s) && Upright(s) && Found(s, i)
    ensures s.callers[i].pc.Probing? ==> !TornDown(s, s.callers[i].pc.t)
    ensures s.callers[i].pc.Waiting? ==> s.callers[i].pc.c < |s.creations|
    ensures forall t: nat :: s.callers[i].pc.Waiting? && Settled(s, s.callers[i].pc.c, Made(t)) ==> !TornDown(s, t)
  {
    forall t: nat | s.callers[i].pc.Waiting? && Settled(s, s.callers[i].pc.c, Made(t))
      ensures !TornDown(s, t)
    {
      assert Unpublished(s, s.creations[s.callers[i].pc.c].creator, t);
    }
  }

  /** What a probe or a wait that gains a transport gains. */
  lemma Gains(s: State, a: Action, i: nat, t: nat)
    requires InRange(s) && Enabled(s, a) && Acts(a, i) && i < |s.callers|
    requires (s.callers[i].pc.Probing? || s.callers[i].pc.Waiting?)
    requires i < |Apply(s, a).callers| && Apply(s, a).callers[i].pc == Has(t)
    ensures t < |s.transports|
    ensures s.callers[i].pc.Probing? ==> s.callers[i].pc.t == t
    ensures s.callers[i].pc.Waiting? ==> Settled(s, s.callers[i].pc.c, Made(t))
  {
  }

  /** When a caller starts to probe or wait, what it will be given is not torn down, or not even made. */
  lemma {:induction false} UpAtFirst(authorities: seq<string>, run: seq<Action>, states: seq<State>, p: nat, q: nat, i: nat, t: nat)
    requires Run(authorities, run, states) && p <= q < |run| && Enters(states, run, p, i)
    requires i < |authorities| && Still(run, p, q, i) && Acts(run[q], i)
    requires i < |states[q + 1].callers| && states[q + 1].callers[i].pc == Has(t)
    ensures !TornDown(states[p], t) && t < |states[q].transports|
  {
    OneStep(authorities, run, states, p - 1);
    EntersFinding(states[p - 1], run[p - 1], i);
    UprightRun(authorities, run, states, p);
    InvRun(authorities, run, states, p);
    FoundUp(states[p], i);
    Stays(authorities, run, states, p, q, i);
    OneStep(authorities, run, states, q);
    Gains(states[q], run[q], i, t);
    if states[p].callers[i].pc.Waiting? && t < |states[p].transports| {
      MadeBefore(authorities, run, states, p, q, states[p].callers[i].pc.c, t);
    }
  }

  /** A creation's transport that existed at some point had been made by then. */
  lemma {:induction false} MadeBefore(authorities: seq<string>, run: seq<Action>, states: seq<State>, p: nat, q: nat, c: nat, t: nat)
    requires Run(authorities, run, states) && p <= q <= |run| && t < |states[p].transports|
    requires c < |states[p].creations| && Settled(states[q], c, Made(t))
    ensures Settled(states[p], c, Made(t))
    decreases q - p
  {
    if p < q {
      OneStep(authorities, run, states, p);
      CreationsKept(states[p], run[p]);
      MadeBefore(authorities, run, states, p + 1, q, c, t);
      MadeNow(states[p], run[p], c, t);
    }
  }

  lemma CreationsKept(s: State, a: Action)
    requires InRange(s) && Enabled(s, a)
    ensures |Apply(s, a).creations| >= |s.creations|
  {
  }

  lemma MadeNow(s: State, a: Action, c: nat, t: nat)
    requires InRange(s) && Enabled(s, a) && c < |s.creations| && t < |s.transports|
    requires Settled(Apply(s, a), c, Made(t))
    ensures Settled(s, c, Made(t))
  {
  }

  /**
   * An acquirer is handed a transport that is not dead and yet torn down exactly if, while it probed or
   * waited, somebody released the last reference to it.
   */
  lemma {:induction false} HandedTornDown(authorities: seq<string>, run: seq<Action>, states: seq<State>, p: nat, q: nat, i: nat, t: nat)
    requires Run(authorities, run, states) && p <= q < |run| && Enters(states, run, p, i)
    requires i < |authorities| && Still(run, p, q, i) && Acts(run[q], i)
    requires i < |states[q + 1].callers| && states[q + 1].callers[i].pc == Has(t)
    ensures TornDown(states[q + 1], t) <==> TornDownBetween(run, states, p, q, t)
    ensures t < |states[q].transports| && !states[q].transports[t].dead ==>
              (TornDown(states[q + 1], t) <==> EmptiedBetween(run, states, p, q, t))
  {
    UpAtFirst(authorities, run, states, p, q, i, t);
    TornDownHow(authorities, run, states, p, q, t);
    OneStep(authorities, run, states, q);
    TornDownStep(states[q], run[q], t);
    Stays(authorities, run, states, p, q, i);
    if !states[q].transports[t].dead {
      EmptiedIfAlive(authorities, run, states, p, q, t);
    }
  }

  lemma RunSnoc(authorities: seq<string>, run: seq<Action>, states: seq<State>, a: Action, u: State)
    requires Run(authorities, run, states) && Leads(states[|run|], a, u)
    ensures Run(authorities, run + [a], states + [u])
  {
    forall k | 0 <= k < |run| + 1
      ensures Leads((states + [u])[k], (run + [a])[k], (states + [u])[k + 1])
    {
      assert k < |run| ==> Leads(states[k], run[k], states[k + 1]);
    }
  }

  /** It does happen: the first caller lets go of the transport while the second one probes it. */
  lemma TornDownHanded(authority: string) returns (run: seq<Action>, states: seq<State>)
    ensures Run([authority, authority], run, states)
    ensures var s := states[|run|];
            |s.callers| == 2 && s.callers[1].pc == Has(0) && TornDown(s, 0) && !s.transports[0].dead
  {
    var both := [authority, authority];
    var idle := Caller(authority, Idle);
    var made := Creation(authority, 0, Made(0));
    var up := Transport(authority, 1, false, false);
    var s1 := State([Caller(authority, Creating(0)), idle], [], [Creation(authority, 0, Running)], map[], map[authority := 0]);
    var s2 := State(s1.callers, [up], [made], map[], map[authority := 0]);
    var s3 := State([Caller(authority, Has(0)), idle], [up], [made], map[authority := 0], map[]);
    var s4 := State([Caller(authority, Has(0)), Caller(authority, Probing(0))], [up], [made], map[authority := 0], map[]);
    var s5 := State([Caller(authority, Gone), Caller(authority, Probing(0))], [up.(refs := 0, killed := true)], [made], map[], map[]);
    var s6 := State([Caller(authority, Gone), Caller(authority, Has(0))], [up.(refs := 1, killed := true)], [made], map[], map[]);
    run, states := [], [Init(both)];
    assert Init(both).callers == [idle, idle];
    FirstSteps(authority, s1, s2, s3);
    LastSteps(authority, s3, s4, s5, s6);
    RunSnoc(both, run, states, Begin(0), s1);
    run, states := run + [Begin(0)], states + [s1];
    RunSnoc(both, run, states, Settle(0, true), s2);
    run, states := run + [Settle(0, true)], states + [s2];
    RunSnoc(both, run, states, Resume(0), s3);
    run, states := run + [Resume(0)], states + [s3];
    RunSnoc(both, run, states, Begin(1), s4);
    run, states := run + [Begin(1)], states + [s4];
    RunSnoc(both, run, states, Release(0), s5);
    run, states := run + [Release(0)], states + [s5];
    RunSnoc(both, run, states, Probed(1, true), s6);
    run, states := run + [Probed(1, true)], states + [s6];
  }

  lemma FirstSteps(authority: string, s1: State, s2: State, s3: State)
    requires s1 == State([Caller(authority, Creating(0)), Caller(authority, Idle)], [], [Creation(authority, 0, Running)], map[], map[authority := 0])
    requires s2 == s1.(transports := [Transport(authority, 1, false, false)], creations := [Creation(authority, 0, Made(0))])
    requires s3 == s2.(callers := [Caller(authority, Has(0)), Caller(authority, Idle)], registered := map[authority := 0], promises := map[])
    ensures Leads(Init([authority, authority]), Begin(0), s1)
    ensures Leads(s1, Settle(0, true), s2)
    ensures Leads(s2, Resume(0), s3)
  {
    FirstStep(authority, s1);
    assert Leads(s1, Settle(0, true), s2);
    ThirdStep(authority, s2, s3);
  }

  lemma FirstStep(authority: string, s1: State)
    requires s1 == State([Caller(authority, Creating(0)), Caller(authority, Idle)], [], [Creation(authority, 0, Running)], map[], map[authority := 0])
    ensures Leads(Init([authority, authority]), Begin(0), s1)
  {
    var s := Init([authority, authority]);
    assert s.callers == [Caller(authority, Idle), Caller(authority, Idle)];
    assert s.callers[0 := Caller(authority, Creating(0))] == s1.callers;
  }

  lemma ThirdStep(authority: string, s2: State, s3: State)
    requires s2 == State([Caller(authority, Creating(0)), Caller(authority, Idle)], [Transport(authority, 1, false, false)],
                         [Creation(authority, 0, Made(0))], map[], map[authority := 0])
    requires s3 == s2.(callers := [Caller(authority, Has(0)), Caller(authority, Idle)], registered := map[authority := 0], promises := map[])
    ensures Leads(s2, Resume(0), s3)
  {
    assert s2.callers[0 := Caller(authority, Has(0))] == s3.callers;
    assert map[authority := 0 as nat] - {authority} == map[];
  }

  lemma LastSteps(authority: string, s3: State, s4: State, s5: State, s6: State)
    requires s3 == State([Caller(authority, Has(0)), Caller(authority, Idle)], [Transport(authority, 1, false, false)],
                         [Creation(authority, 0, Made(0))], map[authority := 0], map[])
    requires s4 == s3.(callers := [Caller(authority, Has(0)), Caller(authority, Probing(0))])
    requires s5 == s4.(callers := [Caller(authority, Gone), Caller(authority, Probing(0))], registered := map[],
                       transports := [Transport(authority, 0, false, true)])
    requires s6 == s5.(callers := [Caller(authority, Gone), Caller(authority, Has(0))], transports := [Transport(authority, 1, false, true)])
    ensures Leads(s3, Begin(1), s4)
    ensures Leads(s4, Release(0), s5)
    ensures Leads(s5, Probed(1, true), s6)
  {
    assert Leads(s3, Begin(1), s4);
    FifthStep(authority, s4, s5);
    assert Leads(s5, Probed(1, true), s6);
  }

  lemma FifthStep(authority: string, s4: State, s5: State)
    requires s4 == State([Caller(authority, Has(0)), Caller(authority, Probing(0))], [Transport(authority, 1, false, false)],
                         [Creation(authority, 0, Made(0))], map[authority := 0], map[])
    requires s5 == s4.(callers := [Caller(authority, Gone), Caller(authority, Probing(0))], registered := map[],
                       transports := [Transport(authority, 0, false, true)])
    ensures Leads(s4, Release(0), s5)
  {
    assert s4.callers[0 := Caller(authority, Gone)] == s5.callers;
    assert map[authority := 0 as nat] - {authority} == map[];
  }
}
