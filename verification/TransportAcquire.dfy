/**
 * acquireTransport with every interleaving at its awaits: many callers, for many authorities, and
 * transports dying or being released at any moment. Each caller releases what it was given once.
 */
module TransportAcquire {
  import opened Basics

  datatype Pc =
    | Idle
    | Probing(t: nat)   // awaiting the probe of a registered transport
    | Waiting(c: nat)   // awaiting somebody else's creation
    | Creating(c: nat)  // awaiting its own creation
    | Has(t: nat)
    | Gone              // released, or the creation failed

  datatype Caller = Caller(authority: string, pc: Pc)
  datatype Transport = Transport(authority: string, refs: int, dead: bool, killed: bool)
  datatype Result = Running | Made(t: nat) | Failed
  datatype Creation = Creation(authority: string, creator: nat, result: Result)

  datatype State = State(
    callers: seq<Caller>,
    transports: seq<Transport>,
    creations: seq<Creation>,
    registered: map<string, nat>,
    promises: map<string, nat>)  // transportPromises: the creation in flight

  datatype Action =
    | Begin(a: nat)
    | Probed(a: nat, alive: bool)
    | Settle(c: nat, ok: bool)   // createTransport resolves or throws
    | Resume(a: nat)             // the await of a creation continues
    | Die(t: nat)
    | Release(a: nat)

  function Init(authorities: seq<string>): State {
    State(seq(|authorities|, i requires 0 <= i < |authorities| => Caller(authorities[i], Idle)), [], [], map[], map[])
  }

  predicate Enabled(s: State, a: Action) {
    match a
    case Begin(i) => i < |s.callers| && s.callers[i].pc == Idle
    case Probed(i, _) => i < |s.callers| && s.callers[i].pc.Probing?
    case Settle(c, _) => c < |s.creations| && s.creations[c].result == Running
    case Resume(i) =>
      && i < |s.callers|
      && (s.callers[i].pc.Creating? || s.callers[i].pc.Waiting?)
      && s.callers[i].pc.c < |s.creations| && s.creations[s.callers[i].pc.c].result != Running
    case Die(t) => t < |s.transports|
    case Release(i) => i < |s.callers| && s.callers[i].pc.Has?
  }

  function SetPc(s: State, i: nat, pc: Pc): State
    requires i < |s.callers|
  {
    s.(callers := s.callers[i := s.callers[i].(pc := pc)])
  }

  function SetTransport(s: State, t: nat, x: Transport): State
    requires t < |s.transports|
  {
    s.(transports := s.transports[t := x])
  }

  /** killSharedTransport of what was registered, and its removal from the map. */
  function TearDown(s: State, t: nat, authority: string): State
    requires t < |s.transports|
  {
    SetTransport(s, t, s.transports[t].(killed := true)).(registered := s.registered - {authority})
  }

  /** createTransport is called, and its promise registered. */
  function Start(s: State, i: nat): State
    requires i < |s.callers|
  {
    var authority, c := s.callers[i].authority, |s.creations|;
    SetPc(s.(creations := s.creations + [Creation(authority, i, Running)], promises := s.promises[authority := c]), i, Creating(c))
  }

  /** After the registered transport was ruled out: join the creation in flight, or start one. */
  function JoinOrCreate(s: State, i: nat, existing: Option<nat>): State
    requires i < |s.callers| && (existing.Some? ==> existing.value < |s.transports|)
  {
    var authority := s.callers[i].authority;
    if authority in s.promises then SetPc(s, i, Waiting(s.promises[authority]))
    else Start(if existing == None then s else TearDown(s, existing.value, authority), i)
  }

  /** acquireTransport up to its first await. */
  function Enter(s: State, i: nat): State
    requires i < |s.callers|
    requires forall k :: k in s.registered ==> s.registered[k] < |s.transports|
  {
    var authority := s.callers[i].authority;
    if authority in s.registered then
      var t := s.registered[authority];
      if s.transports[t].dead then JoinOrCreate(s, i, Some(t)) else SetPc(s, i, Probing(t))
    else JoinOrCreate(s, i, None)
  }

  function AddRef(s: State, t: nat): State
    requires t < |s.transports|
  {
    SetTransport(s, t, s.transports[t].(refs := s.transports[t].refs + 1))
  }

  ghost predicate InRange(s: State) {
    && (forall k :: k in s.registered ==> s.registered[k] < |s.transports|)
    && (forall k :: k in s.promises ==> s.promises[k] < |s.creations|)
    && (forall i: nat :: i < |s.callers| ==>
          match s.callers[i].pc
          case Probing(t) => t < |s.transports|
          case Has(t) => t < |s.transports|
          case Waiting(c) => c < |s.creations|
          case Creating(c) => c < |s.creations|
          case _ => true)
    && (forall c: nat :: c < |s.creations| && s.creations[c].result.Made? ==> s.creations[c].result.t < |s.transports|)
  }

  ghost function Apply(s: State, a: Action): State
    requires InRange(s) && Enabled(s, a)
  {
    match a
    case Begin(i) => Enter(s, i)
    case Probed(i, alive) =>
      var t := s.callers[i].pc.t;
      if alive then SetPc(AddRef(s, t), i, Has(t))
      else JoinOrCreate(SetTransport(s, t, s.transports[t].(dead := true)), i, Some(t))
    case Settle(c, ok) =>
      if !ok then s.(creations := s.creations[c := s.creations[c].(result := Failed)])
      else
        s.(transports := s.transports + [Transport(s.creations[c].authority, 1, false, false)],
           creations := s.creations[c := s.creations[c].(result := Made(|s.transports|))])
    case Resume(i) =>
      var c := s.callers[i].pc.c;
      var authority := s.callers[i].authority;
      if s.callers[i].pc.Creating? then
        var done := s.(promises := s.promises - {authority});
        if s.creations[c].result == Failed then SetPc(done, i, Gone)
        else SetPc(done.(registered := s.registered[authority := s.creations[c].result.t]), i, Has(s.creations[c].result.t))
      else if s.creations[c].result == Failed then SetPc(s, i, Gone)
      else
        var t := s.creations[c].result.t;
        if s.transports[t].dead then Enter(s, i) else SetPc(AddRef(s, t), i, Has(t))
    case Die(t) => SetTransport(s, t, s.transports[t].(dead := true))
    case Release(i) =>
      var t := s.callers[i].pc.t;
      var x := s.transports[t].(refs := s.transports[t].refs - 1);
      var dropped := SetPc(SetTransport(s, t, x), i, Gone);
      if x.refs <= 0 then TearDown(dropped, t, x.authority) else dropped
  }

  // --- what each step comes to, in the fields ---

  /** A caller without a live registered transport joins the creation in flight, or starts the only one. */
  ghost predicate Joins(s: State, i: nat, u: State)
    requires i < |s.callers| == |u.callers|
  {
    var a := s.callers[i].authority;
    && u.callers[i].authority == a
    && if a in s.promises then
         && u.callers[i].pc == Waiting(s.promises[a]) && u.transports == s.transports
         && u.registered == s.registered && u.creations == s.creations && u.promises == s.promises
       else
         && u.callers[i].pc == Creating(|s.creations|) && u.creations == s.creations + [Creation(a, i, Running)]
         && u.promises == s.promises[a := |s.creations|] && a !in u.registered
         && (forall b :: b in s.registered && b != a ==> b in u.registered && u.registered[b] == s.registered[b])
  }

  ghost predicate SeeksAnew(s: State, i: nat, u: State)
    requires i < |s.callers| == |u.callers|
  {
    var a := s.callers[i].authority;
    if a in s.registered && s.registered[a] < |s.transports| && !s.transports[s.registered[a]].dead then
      u == s.(callers := s.callers[i := Caller(a, Probing(s.registered[a]))])
    else Joins(s, i, u) && (a in s.registered && a !in s.promises ==>
           s.registered[a] < |u.transports| && u.transports[s.registered[a]].killed)
  }

  /** A step of a caller or of the world, told by the fields before and after it. */
  ghost predicate Told(s: State, a: Action, u: State)
    requires InRange(s) && Enabled(s, a)
  {
    match a
    case Begin(i) => |u.callers| == |s.callers| && SeeksAnew(s, i, u)
    case Probed(i, alive) =>
      var t := s.callers[i].pc.t;
      && |u.callers| == |s.callers| && |u.transports| == |s.transports|
      && if alive then u.callers[i].pc == Has(t) && u.transports[t] == s.transports[t].(refs := s.transports[t].refs + 1)
         else
           && u.transports[t].dead && (s.callers[i].authority !in s.promises ==> u.transports[t].killed)
           && Joins(s.(transports := s.transports[t := s.transports[t].(dead := true)]), i, u)
    case Settle(c, ok) =>
      && u.callers == s.callers && u.registered == s.registered && u.promises == s.promises && |u.creations| == |s.creations|
      && (if ok then
            && u.transports == s.transports + [Transport(s.creations[c].authority, 1, false, false)]
            && u.creations[c].result == Made(|s.transports|)
          else u.transports == s.transports && u.creations[c].result == Failed)
    case Resume(i) =>
      var r, b := s.creations[s.callers[i].pc.c].result, s.callers[i].authority;
      && |u.callers| == |s.callers|
      && (s.callers[i].pc.Creating? ==> b !in u.promises && u.transports == s.transports)
      && (r == Failed ==> u.callers[i].pc == Gone && u.registered == s.registered && u.transports == s.transports)
      && (r.Made? && s.callers[i].pc.Creating? ==> u.callers[i].pc == Has(r.t) && u.registered == s.registered[b := r.t])
      && (r.Made? && s.callers[i].pc.Waiting? ==>
            if s.transports[r.t].dead then SeeksAnew(s, i, u)
            else
              && u.callers[i].pc == Has(r.t) && u.registered == s.registered
              && u.transports == s.transports[r.t := s.transports[r.t].(refs := s.transports[r.t].refs + 1)])
    case Die(t) => u == s.(transports := s.transports[t := s.transports[t].(dead := true)])
    case Release(i) =>
      var t := s.callers[i].pc.t;
      && |u.callers| == |s.callers| && |u.transports| == |s.transports| && u.callers[i].pc == Gone
      && u.transports[t].refs == s.transports[t].refs - 1
      && (u.transports[t].killed <==> s.transports[t].killed || s.transports[t].refs <= 1)
      && u.registered == if s.transports[t].refs <= 1 then s.registered - {s.transports[t].authority} else s.registered
  }

  lemma JoinTold(s: State, i: nat, existing: Option<nat>)
    requires i < |s.callers| && (existing.Some? ==> existing.value < |s.transports|)
    requires existing == None ==> s.callers[i].authority !in s.registered
    ensures var u := JoinOrCreate(s, i, existing);
            && |u.callers| == |s.callers| && |u.transports| == |s.transports| && Joins(s, i, u)
            && (existing.Some? && s.callers[i].authority !in s.promises ==> u.transports[existing.value].killed)
            && (existing.Some? ==> u.transports[existing.value].dead == s.transports[existing.value].dead)
  {
  }

  lemma EnterTold(s: State, i: nat)
    requires InRange(s) && i < |s.callers|
    ensures |Enter(s, i).callers| == |s.callers| && SeeksAnew(s, i, Enter(s, i))
  {
    var a := s.callers[i].authority;
    JoinTold(s, i, if a in s.registered then Some(s.registered[a]) else None);
  }

  lemma StepTold(s: State, a: Action)
    requires InRange(s) && Enabled(s, a)
    ensures Told(s, a, Apply(s, a))
  {
    match a
    case Begin(i) => EnterTold(s, i);
    case Probed(i, alive) =>
      if !alive {
        var t := s.callers[i].pc.t;
        JoinTold(SetTransport(s, t, s.transports[t].(dead := true)), i, Some(t));
      }
    case Resume(i) =>
      if s.callers[i].pc.Waiting? && s.creations[s.callers[i].pc.c].result.Made? {
        EnterTold(s, i);
      }
    case _ =>
  }

  /** In every run each step is as told, and moves no other caller. */
  lemma EveryStepTold(authorities: seq<string>, run: seq<Action>, states: seq<State>, k: nat)
    requires Run(authorities, run, states) && k < |run|
    ensures Enabled(states[k], run[k]) && InRange(states[k]) && Told(states[k], run[k], states[k + 1])
    ensures OthersStay(states[k], run[k], states[k + 1])
  {
    assert Leads(states[k], run[k], states[k + 1]);
    StepTold(states[k], run[k]);
    OthersOnward(states[k], run[k]);
  }

  // --- who holds a reference ---

  /** A caller that has the transport, or is the creator about to be handed it. */
  predicate Owns(s: State, i: nat, t: nat)
    requires i < |s.callers|
  {
    match s.callers[i].pc
    case Has(u) => u == t
    case Creating(c) => c < |s.creations| && s.creations[c].result == Made(t)
    case _ => false
  }

  /** How many of the first n callers own it. */
  function Owners(s: State, t: nat, n: nat): nat
    requires n <= |s.callers|
  {
    if n == 0 then 0 else Owners(s, t, n - 1) + if Owns(s, n - 1, t) then 1 else 0
  }

  /** Each creation still awaited by its creator is the one in the promise map for its authority. */
  ghost predicate Creators(s: State) {
    && (forall i: nat :: i < |s.callers| && s.callers[i].pc.Creating? ==>
          var c := s.callers[i].pc.c;
          && c < |s.creations| && s.creations[c].creator == i && s.creations[c].authority == s.callers[i].authority
          && s.callers[i].authority in s.promises && s.promises[s.callers[i].authority] == c)
    && (forall k :: k in s.promises ==>
          var c := s.promises[k];
          && c < |s.creations| && s.creations[c].authority == k
          && s.creations[c].creator < |s.callers| && s.callers[s.creations[c].creator].pc == Creating(c))
    && (forall c: nat :: c < |s.creations| && s.creations[c].result == Running ==>
          s.creations[c].authority in s.promises && s.promises[s.creations[c].authority] == c)
  }

  ghost predicate Counted(s: State) {
    forall t: nat :: t < |s.transports| ==> s.transports[t].refs == Owners(s, t, |s.callers|)
  }

  ghost predicate Inv(s: State) {
    InRange(s) && Creators(s) && Counted(s)
  }

  /** One caller changes what it owns, or nobody does. */
  lemma {:induction false} OwnersChange(s: State, u: State, t: nat, i: nat, n: nat)
    requires n <= |s.callers| == |u.callers| && i < |s.callers|
    requires forall j: nat :: j < |s.callers| && j != i ==> Owns(s, j, t) == Owns(u, j, t)
    ensures Owners(u, t, n) == Owners(s, t, n)
              + (if i < n && Owns(u, i, t) then 1 else 0) - (if i < n && Owns(s, i, t) then 1 else 0)
  {
    if n > 0 {
      OwnersChange(s, u, t, i, n - 1);
    }
  }

  lemma {:induction false} OwnersSome(s: State, t: nat, n: nat)
    requires n <= |s.callers|
    ensures Owners(s, t, n) > 0 <==> exists i: nat :: i < n && Owns(s, i, t)
  {
    if n > 0 {
      OwnersSome(s, t, n - 1);
      if Owns(s, n - 1, t) {
      } else if i: nat :| i < n && Owns(s, i, t) {
        assert i < n - 1;
      }
    }
  }

  // --- every step keeps the invariant ---

  lemma TearDownKeeps(s: State, t: nat, authority: string)
    requires Inv(s) && t < |s.transports|
    ensures Inv(TearDown(s, t, authority))
  {
    MarkKeeps(s, t, s.transports[t].(killed := true));
    var m, u := SetTransport(s, t, s.transports[t].(killed := true)), TearDown(s, t, authority);
    if |s.callers| > 0 {
      forall v: nat | v < |u.transports|
        ensures u.transports[v].refs == Owners(u, v, |u.callers|)
      {
        OwnersChange(m, u, v, 0, |s.callers|);
      }
    }
  }

  lemma StartKeeps(s: State, i: nat)
    requires Inv(s) && i < |s.callers| && s.callers[i].authority !in s.promises
    requires !s.callers[i].pc.Creating? && !s.callers[i].pc.Has?
    ensures Inv(Start(s, i))
  {
    var u := Start(s, i);
    forall t: nat | t < |u.transports|
      ensures u.transports[t].refs == Owners(u, t, |u.callers|)
    {
      OwnersChange(s, u, t, i, |s.callers|);
    }
  }

  lemma JoinOrCreateKeeps(s: State, i: nat, existing: Option<nat>)
    requires Inv(s) && i < |s.callers| && (existing.Some? ==> existing.value < |s.transports|)
    requires !s.callers[i].pc.Creating? && !s.callers[i].pc.Has?
    ensures Inv(JoinOrCreate(s, i, existing))
  {
    var authority := s.callers[i].authority;
    if authority in s.promises {
      SetPcKeeps(s, i, Waiting(s.promises[authority]));
    } else if existing == None {
      StartKeeps(s, i);
    } else {
      TearDownKeeps(s, existing.value, authority);
      StartKeeps(TearDown(s, existing.value, authority), i);
    }
  }

  lemma EnterKeeps(s: State, i: nat)
    requires Inv(s) && i < |s.callers| && !s.callers[i].pc.Creating? && !s.callers[i].pc.Has?
    ensures Inv(Enter(s, i))
  {
    var authority := s.callers[i].authority;
    if authority in s.registered && !s.transports[s.registered[authority]].dead {
      SetPcKeeps(s, i, Probing(s.registered[authority]));
    } else {
      JoinOrCreateKeeps(s, i, if authority in s.registered then Some(s.registered[authority]) else None);
    }
  }

  lemma SetPcKeeps(s: State, i: nat, pc: Pc)
    requires Inv(s) && i < |s.callers| && !s.callers[i].pc.Creating? && !s.callers[i].pc.Has?
    requires (pc.Probing? && pc.t < |s.transports|) || (pc.Waiting? && pc.c < |s.creations|) || pc == Gone
    ensures Inv(SetPc(s, i, pc))
  {
    var u := SetPc(s, i, pc);
    forall t: nat | t < |u.transports|
      ensures u.transports[t].refs == Owners(u, t, |u.callers|)
    {
      OwnersChange(s, u, t, i, |s.callers|);
    }
  }

  lemma TakeRefKeeps(s: State, i: nat, t: nat)
    requires Inv(s) && i < |s.callers| && !s.callers[i].pc.Creating? && !s.callers[i].pc.Has? && t < |s.transports|
    ensures Inv(SetPc(AddRef(s, t), i, Has(t)))
  {
    var u := SetPc(AddRef(s, t), i, Has(t));
    forall v: nat | v < |u.transports|
      ensures u.transports[v].refs == Owners(u, v, |u.callers|)
    {
      OwnersChange(s, u, v, i, |s.callers|);
    }
  }

  lemma MarkKeeps(s: State, t: nat, x: Transport)
    requires Inv(s) && t < |s.transports| && x.refs == s.transports[t].refs
    ensures Inv(SetTransport(s, t, x))
  {
    var u := SetTransport(s, t, x);
    if |s.callers| > 0 {
      forall v: nat | v < |u.transports|
        ensures u.transports[v].refs == Owners(u, v, |u.callers|)
      {
        OwnersChange(s, u, v, 0, |s.callers|);
      }
    }
  }

  lemma SettleKeeps(s: State, c: nat, ok: bool)
    requires Inv(s) && Enabled(s, Settle(c, ok))
    ensures Inv(Apply(s, Settle(c, ok)))
  {
    var u := Apply(s, Settle(c, ok));
    var i := s.creations[c].creator;
    assert s.callers[i].pc == Creating(c);
    forall t: nat | t < |u.transports|
      ensures u.transports[t].refs == Owners(u, t, |u.callers|)
    {
      OwnersChange(s, u, t, i, |s.callers|);
      if t == |s.transports| {
        Unowned(s, t, |s.callers|);
      }
    }
  }

  lemma {:induction false} Unowned(s: State, t: nat, n: nat)
    requires InRange(s) && n <= |s.callers| && t >= |s.transports|
    ensures Owners(s, t, n) == 0
  {
    if n > 0 {
      Unowned(s, t, n - 1);
      assert !Owns(s, n - 1, t);
    }
  }

  lemma CreatorResumesCounted(s: State, i: nat, u: State)
    requires Inv(s) && Enabled(s, Resume(i)) && s.callers[i].pc.Creating? && u == Apply(s, Resume(i))
    ensures Counted(u)
  {
    forall t: nat | t < |u.transports|
      ensures u.transports[t].refs == Owners(u, t, |u.callers|)
    {
      OwnersChange(s, u, t, i, |s.callers|);
    }
  }

  lemma CreatorResumesKeeps(s: State, i: nat)
    requires Inv(s) && Enabled(s, Resume(i)) && s.callers[i].pc.Creating?
    ensures Inv(Apply(s, Resume(i)))
  {
    CreatorResumesCounted(s, i, Apply(s, Resume(i)));
  }

  /** A caller has given its reference back. */
  function Dropped(s: State, i: nat, t: nat): State
    requires i < |s.callers| && t < |s.transports|
  {
    SetPc(SetTransport(s, t, s.transports[t].(refs := s.transports[t].refs - 1)), i, Gone)
  }

  lemma DropRefCounted(s: State, i: nat, t: nat)
    requires Inv(s) && i < |s.callers| && s.callers[i].pc == Has(t)
    ensures Counted(Dropped(s, i, t))
  {
    var u := Dropped(s, i, t);
    forall v: nat | v < |u.transports|
      ensures u.transports[v].refs == Owners(u, v, |u.callers|)
    {
      OwnersChange(s, u, v, i, |s.callers|);
    }
  }

  lemma DropRefKeeps(s: State, i: nat)
    requires Inv(s) && Enabled(s, Release(i))
    ensures Inv(Dropped(s, i, s.callers[i].pc.t))
  {
    DropRefCounted(s, i, s.callers[i].pc.t);
  }

  lemma ReleaseKeeps(s: State, i: nat)
    requires Inv(s) && Enabled(s, Release(i))
    ensures Inv(Apply(s, Release(i)))
  {
    DropRefKeeps(s, i);
    var t := s.callers[i].pc.t;
    var x := s.transports[t].(refs := s.transports[t].refs - 1);
    if x.refs <= 0 {
      TearDownKeeps(SetPc(SetTransport(s, t, x), i, Gone), t, x.authority);
    }
  }

  lemma InvStep(s: State, a: Action)
    requires Inv(s) && Enabled(s, a)
    ensures Inv(Apply(s, a))
  {
    match a
    case Begin(i) => EnterKeeps(s, i);
    case Probed(i, alive) =>
      var t := s.callers[i].pc.t;
      if alive {
        TakeRefKeeps(s, i, t);
      } else {
        MarkKeeps(s, t, s.transports[t].(dead := true));
        JoinOrCreateKeeps(SetTransport(s, t, s.transports[t].(dead := true)), i, Some(t));
      }
    case Settle(c, ok) => SettleKeeps(s, c, ok);
    case Resume(i) =>
      if s.callers[i].pc.Creating? {
        CreatorResumesKeeps(s, i);
      } else {
        var r := s.creations[s.callers[i].pc.c].result;
        if r == Failed {
          SetPcKeeps(s, i, Gone);
        } else if s.transports[r.t].dead {
          EnterKeeps(s, i);
        } else {
          TakeRefKeeps(s, i, r.t);
        }
      }
    case Die(t) => MarkKeeps(s, t, s.transports[t].(dead := true));
    case Release(i) => ReleaseKeeps(s, i);
  }

  // --- all runs ---

  ghost predicate Leads(s: State, a: Action, u: State) {
    InRange(s) && Enabled(s, a) && u == Apply(s, a)
  }

  /** The states a run goes through, from the first on. */
  ghost predicate Run(authorities: seq<string>, run: seq<Action>, states: seq<State>) {
    && |states| == |run| + 1 && states[0] == Init(authorities)
    && forall k :: 0 <= k < |run| ==> Leads(states[k], run[k], states[k + 1])
  }

  lemma {:induction false} NobodyOwnsAtFirst(authorities: seq<string>, t: nat, n: nat)
    requires n <= |authorities|
    ensures Owners(Init(authorities), t, n) == 0
  {
    if n > 0 {
      NobodyOwnsAtFirst(authorities, t, n - 1);
    }
  }

  lemma {:induction false} InvRun(authorities: seq<string>, run: seq<Action>, states: seq<State>, k: nat)
    requires Run(authorities, run, states) && k <= |run|
    ensures Inv(states[k]) && |states[k].callers| == |authorities|
  {
    if k > 0 {
      InvRun(authorities, run, states, k - 1);
      assert Leads(states[k - 1], run[k - 1], states[k - 1 + 1]);
      InvStep(states[k - 1], run[k - 1]);
      OthersOnward(states[k - 1], run[k - 1]);
    }
  }

  /**
   * In every reachable state of every interleaving: per authority at most one creation is running; every
   * transport's count is the number of callers that own it.
   */
  lemma {:induction false} AcquireSafety(authorities: seq<string>, run: seq<Action>, states: seq<State>, k: nat)
    requires Run(authorities, run, states) && k <= |run|
    ensures var s := states[k];
            && (forall c: nat, d: nat :: c < d < |s.creations| && s.creations[c].result == Running && s.creations[d].result == Running ==>
                  s.creations[c].authority != s.creations[d].authority)
            && (forall t: nat :: t < |s.transports| ==> s.transports[t].refs == Owners(s, t, |s.callers|))
  {
    InvRun(authorities, run, states, k);
  }

  ghost predicate SoleOwner(s: State, i: nat, t: nat) {
    forall j: nat :: j < |s.callers| && j != i ==> !Owns(s, j, t)
  }

  /** A release tears the transport down just when nobody else owns it. */
  lemma LastRelease(s: State, i: nat)
    requires Inv(s) && Enabled(s, Release(i)) && !s.transports[s.callers[i].pc.t].killed
    ensures Apply(s, Release(i)).transports[s.callers[i].pc.t].killed <==> SoleOwner(s, i, s.callers[i].pc.t)
  {
    var t := s.callers[i].pc.t;
    var u := Apply(s, Release(i));
    ReleaseKeeps(s, i);
    OwnersSome(u, t, |u.callers|);
    assert forall j: nat :: j < |s.callers| && j != i ==> Owns(u, j, t) == Owns(s, j, t);
    assert !Owns(u, i, t);
  }

  // --- what no step undoes ---

  predicate Awaits(s: State, i: nat, c: nat) {
    i < |s.callers| && (s.callers[i].pc == Waiting(c) || s.callers[i].pc == Creating(c))
  }

  predicate Acts(a: Action, i: nat) {
    match a
    case Begin(j) => j == i
    case Probed(j, _) => j == i
    case Resume(j) => j == i
    case Release(j) => j == i
    case _ => false
  }

  predicate Settled(s: State, c: nat, r: Result) {
    c < |s.creations| && s.creations[c].result == r && r != Running
  }

  /** A caller is moved by its own actions only; what is settled, dead or torn down stays so. */
  ghost predicate Moved(s: State, a: Action, u: State) {
    OthersStay(s, a, u) && SettledStays(s, u) && DeadStays(s, u)
  }

  ghost predicate OthersStay(s: State, a: Action, u: State) {
    && |u.callers| == |s.callers|
    && forall i: nat :: i < |s.callers| ==>
         u.callers[i].authority == s.callers[i].authority && (!Acts(a, i) ==> u.callers[i] == s.callers[i])
  }

  ghost predicate SettledStays(s: State, u: State) {
    forall c: nat, r: Result :: Settled(s, c, r) ==> Settled(u, c, r)
  }

  ghost predicate DeadStays(s: State, u: State) {
    |u.transports| >= |s.transports| && forall t: nat :: t < |s.transports| && s.transports[t].dead ==> u.transports[t].dead
  }

  ghost predicate Only(s: State, i: nat, u: State) {
    && |u.callers| == |s.callers|
    && forall j: nat :: j < |s.callers| ==>
         u.callers[j].authority == s.callers[j].authority && (j != i ==> u.callers[j] == s.callers[j])
  }

  lemma JoinOnly(s: State, i: nat, existing: Option<nat>)
    requires i < |s.callers| && (existing.Some? ==> existing.value < |s.transports|)
    ensures Only(s, i, JoinOrCreate(s, i, existing))
  {
  }

  lemma EnterOnly(s: State, i: nat)
    requires InRange(s) && i < |s.callers|
    ensures Only(s, i, Enter(s, i))
  {
    var authority := s.callers[i].authority;
    if !(authority in s.registered && !s.transports[s.registered[authority]].dead) {
      JoinOnly(s, i, if authority in s.registered then Some(s.registered[authority]) else None);
    }
  }

  lemma OthersOnward(s: State, a: Action)
    requires InRange(s) && Enabled(s, a)
    ensures OthersStay(s, a, Apply(s, a))
  {
    match a
    case Begin(i) => EnterOnly(s, i);
    case Probed(i, alive) =>
      if !alive {
        var t := s.callers[i].pc.t;
        JoinOnly(SetTransport(s, t, s.transports[t].(dead := true)), i, Some(t));
      }
    case Resume(i) =>
      if s.callers[i].pc.Waiting? && s.creations[s.callers[i].pc.c].result.Made? {
        EnterOnly(s, i);
      }
    case _ =>
  }

  lemma SettledOnward(s: State, a: Action)
    requires InRange(s) && Enabled(s, a)
    ensures SettledStays(s, Apply(s, a))
  {
  }

  lemma DeadOnward(s: State, a: Action)
    requires InRange(s) && Enabled(s, a)
    ensures DeadStays(s, Apply(s, a))
  {
  }

  lemma Onward(s: State, a: Action)
    requires InRange(s) && Enabled(s, a)
    ensures Moved(s, a, Apply(s, a))
  {
    OthersOnward(s, a);
    SettledOnward(s, a);
    DeadOnward(s, a);
  }

  lemma OneStep(authorities: seq<string>, run: seq<Action>, states: seq<State>, k: nat)
    requires Run(authorities, run, states) && k < |run|
    ensures Inv(states[k]) && Enabled(states[k], run[k]) && states[k + 1] == Apply(states[k], run[k])
    ensures Moved(states[k], run[k], states[k + 1]) && |states[k].callers| == |authorities|
  {
    InvRun(authorities, run, states, k);
    assert Leads(states[k], run[k], states[k + 1]);
    Onward(states[k], run[k]);
  }

  lemma {:induction false} SettledLater(authorities: seq<string>, run: seq<Action>, states: seq<State>, p: nat, q: nat, c: nat, r: Result)
    requires Run(authorities, run, states) && p <= q <= |run| && Settled(states[p], c, r)
    ensures Settled(states[q], c, r)
    decreases q - p
  {
    if p < q {
      OneStep(authorities, run, states, p);
      SettledLater(authorities, run, states, p + 1, q, c, r);
    }
  }

  lemma {:induction false} DeadLater(authorities: seq<string>, run: seq<Action>, states: seq<State>, p: nat, q: nat, t: nat)
    requires Run(authorities, run, states) && p <= q <= |run| && t < |states[p].transports| && states[p].transports[t].dead
    ensures t < |states[q].transports| && states[q].transports[t].dead
    decreases q - p
  {
    if p < q {
      OneStep(authorities, run, states, p);
      DeadLater(authorities, run, states, p + 1, q, t);
    }
  }

  /** A caller does nothing from one state to another. */
  predicate Still(run: seq<Action>, p: nat, q: nat, i: nat) {
    q <= |run| && forall k :: p <= k < q ==> !Acts(run[k], i)
  }

  lemma {:induction false} Stays(authorities: seq<string>, run: seq<Action>, states: seq<State>, p: nat, q: nat, i: nat)
    requires Run(authorities, run, states) && p <= q <= |run| && i < |authorities| && Still(run, p, q, i)
    ensures |states[p].callers| == |states[q].callers| == |authorities| && states[q].callers[i] == states[p].callers[i]
    decreases q - p
  {
    InvRun(authorities, run, states, p);
    if p < q {
      OneStep(authorities, run, states, p);
      Stays(authorities, run, states, p + 1, q, i);
    }
  }

  /** What the end of a wait gives: the transport made, unless a waiter finds it dead. */
  ghost predicate Gets(s: State, i: nat, t: nat, u: State) {
    && i < |s.callers| == |u.callers| && t < |s.transports|
    && if s.callers[i].pc.Waiting? && s.transports[t].dead then !u.callers[i].pc.Has?
       else
         && u.callers[i].pc == Has(t)
         && u.transports ==
              if s.callers[i].pc.Waiting? then s.transports[t := s.transports[t].(refs := s.transports[t].refs + 1)] else s.transports
  }

  lemma ResumeGets(s: State, i: nat, c: nat, t: nat)
    requires Inv(s) && Awaits(s, i, c) && Settled(s, c, Made(t)) && Enabled(s, Resume(i))
    ensures Gets(s, i, t, Apply(s, Resume(i)))
  {
  }

  /** What one caller's await of a creation comes to. */
  ghost predicate Ends(s: State, i: nat, r: Result, u: State) {
    match r
    case Running => false
    case Failed => i < |u.callers| && u.callers[i].pc == Gone
    case Made(t) => Gets(s, i, t, u)
  }

  lemma ResumeEnds(s: State, i: nat, c: nat)
    requires Inv(s) && Awaits(s, i, c) && Enabled(s, Resume(i))
    ensures c < |s.creations| && Ends(s, i, s.creations[c].result, Apply(s, Resume(i)))
  {
    if s.creations[c].result.Made? {
      ResumeGets(s, i, c, s.creations[c].result.t);
    }
  }

  /**
   * Over any run: whoever awaits one creation, its creator among them, gets the same outcome, however far
   * apart they resume. If it made a transport they all get that one, except a waiter that finds it dead; a
   * waiter adds one reference to it and the creator none beyond the one it was made with.
   */
  lemma {:induction false} JoinersShare(authorities: seq<string>, run: seq<Action>, states: seq<State>,
                                        p: nat, q: nat, i: nat, j: nat, c: nat)
    returns (r: Result)
    requires Run(authorities, run, states) && p <= q < |run| && run[p] == Resume(i) && run[q] == Resume(j)
    requires Awaits(states[p], i, c) && Awaits(states[q], j, c)
    ensures Settled(states[p], c, r) && Ends(states[p], i, r, states[p + 1])
    ensures Settled(states[q], c, r) && Ends(states[q], j, r, states[q + 1])
  {
    OneStep(authorities, run, states, p);
    OneStep(authorities, run, states, q);
    ResumeEnds(states[p], i, c);
    ResumeEnds(states[q], j, c);
    r := states[p].creations[c].result;
    SettledLater(authorities, run, states, p, q, c, r);
  }

  /** And as long as neither has released it, they hold the same transport, each worth one of its references. */
  lemma {:induction false} HeldTogether(authorities: seq<string>, run: seq<Action>, states: seq<State>,
                                        p: nat, q: nat, n: nat, i: nat, j: nat, c: nat)
    returns (t: nat)
    requires Run(authorities, run, states) && p < q < n <= |run| && run[p] == Resume(i) && run[q] == Resume(j)
    requires i < |authorities| && j < |authorities| && i != j
    requires Awaits(states[p], i, c) && Awaits(states[q], j, c)
    requires Gained(states[p + 1], i) && Gained(states[q + 1], j)
    requires Still(run, p + 1, n, i) && Still(run, q + 1, n, j)
    ensures Settled(states[p], c, Made(t)) && BothHold(states[n], i, j, t)
  {
    var r := JoinersShare(authorities, run, states, p, q, i, j, c);
    t := r.t;
    Stays(authorities, run, states, p + 1, n, i);
    Stays(authorities, run, states, q + 1, n, j);
    InvRun(authorities, run, states, n);
    BothOwn(states[n], i, j, t);
  }

  predicate Gained(s: State, i: nat) {
    i < |s.callers| && s.callers[i].pc.Has?
  }

  ghost predicate BothHold(s: State, i: nat, j: nat, t: nat) {
    && i < |s.callers| && j < |s.callers| && t < |s.transports|
    && s.callers[i].pc == Has(t) && s.callers[j].pc == Has(t)
    && s.transports[t].refs == Owners(s, t, |s.callers|) >= 2
  }

  lemma BothOwn(s: State, i: nat, j: nat, t: nat)
    requires Inv(s) && i < |s.callers| && j < |s.callers| && i != j
    requires s.callers[i].pc == Has(t) && s.callers[j].pc == Has(t)
    ensures BothHold(s, i, j, t)
  {
    TwoOwners(s, t, i, j, |s.callers|);
  }

  lemma {:induction false} TwoOwners(s: State, t: nat, i: nat, j: nat, n: nat)
    requires i < n <= |s.callers| && j < n && i != j && Owns(s, i, t) && Owns(s, j, t)
    ensures Owners(s, t, n) >= 2
  {
    if i < n - 1 && j < n - 1 {
      TwoOwners(s, t, i, j, n - 1);
    } else {
      OwnersSome(s, t, n - 1);
      assert Owns(s, if i < n - 1 then i else j, t);
    }
  }
}
