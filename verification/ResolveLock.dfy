/**
 * The resolve lock: a directory, made by mkdir and reclaimed by age. Here every system call, and the clock
 * reading that follows stat, is a step other clients' steps can come before.
 */
module ResolveLock {
  import opened Basics

  datatype Client =
    | Idle
    | Found                           // the first mkdir met an existing directory
    | Dated(mtime: int, statAt: int)  // stat answered; its age is still to be taken
    | Reclaiming                      // the age was over the limit
    | Removed                         // RemoveAll is done; the second mkdir is to come
    | Holding(since: int)

  datatype State = State(clients: seq<Client>, dir: Option<int>, now: int)

  datatype Action =
    | Tick(d: nat)
    | Mkdir(c: nat)
    | Stat(c: nat)
    | Age(c: nat)
    | RemoveAll(c: nat)
    | MkdirAgain(c: nat)
    | Unlock(c: nat)
    | Abandon(c: nat)  // a holder that will never unlock

  /** The environment's side of the bargain: no lock is held, and no stat result waited on, longer than this. */
  datatype Limits = Limits(hold: nat, delay: nat, stale: int)

  function Init(n: nat): State {
    State(seq(n, i => Idle), None, 0)
  }

  predicate Enabled(s: State, a: Action) {
    match a
    case Tick(_) => true
    case Mkdir(c) => c < |s.clients| && s.clients[c].Idle?
    case Stat(c) => c < |s.clients| && s.clients[c].Found?
    case Age(c) => c < |s.clients| && s.clients[c].Dated?
    case RemoveAll(c) => c < |s.clients| && s.clients[c].Reclaiming?
    case MkdirAgain(c) => c < |s.clients| && s.clients[c].Removed?
    case Unlock(c) => c < |s.clients| && s.clients[c].Holding?
    case Abandon(c) => c < |s.clients| && s.clients[c].Holding?
  }

  function Apply(stale: int, s: State, a: Action): (t: State)
    requires Enabled(s, a)
    ensures |t.clients| == |s.clients|
  {
    match a
    case Tick(d) => s.(now := s.now + d)
    case Mkdir(c) =>
      if s.dir == None then s.(dir := Some(s.now), clients := s.clients[c := Holding(s.now)])
      else s.(clients := s.clients[c := Found])
    case Stat(c) =>
      s.(clients := s.clients[c := if s.dir == None then Idle else Dated(s.dir.value, s.now)])
    case Age(c) =>
      s.(clients := s.clients[c := if s.now - s.clients[c].mtime > stale then Reclaiming else Idle])
    case RemoveAll(c) => s.(dir := None, clients := s.clients[c := Removed])
    case MkdirAgain(c) =>
      if s.dir == None then s.(dir := Some(s.now), clients := s.clients[c := Holding(s.now)])
      else s.(clients := s.clients[c := Idle])
    case Unlock(c) => s.(dir := None, clients := s.clients[c := Idle])
    case Abandon(c) => s.(clients := s.clients[c := Idle])
  }

  ghost predicate Timely(l: Limits, s: State) {
    forall c :: 0 <= c < |s.clients| ==>
      && (s.clients[c].Holding? ==> s.now - s.clients[c].since <= l.hold)
      && (s.clients[c].Dated? ==> s.now - s.clients[c].statAt <= l.delay)
  }

  /** A run in which the limits are kept in every state. */
  ghost predicate Legal(l: Limits, s: State, run: seq<Action>)
    decreases |run|
  {
    && Timely(l, s)
    && (|run| > 0 ==> Enabled(s, run[0]) && Legal(l, Apply(l.stale, s, run[0]), run[1..]))
  }

  ghost function Exec(l: Limits, s: State, run: seq<Action>): State
    requires Legal(l, s, run)
    decreases |run|
  {
    if |run| == 0 then s else Exec(l, Apply(l.stale, s, run[0]), run[1..])
  }

  ghost predicate Exclusive(s: State) {
    forall c, d :: 0 <= c < d < |s.clients| ==> !(s.clients[c].Holding? && s.clients[d].Holding?)
  }

  /** Every holder unlocks. */
  predicate Faithful(run: seq<Action>)
    decreases |run|
  {
    |run| == 0 || (!run[0].Abandon? && Faithful(run[1..]))
  }

  ghost predicate AlwaysExclusive(l: Limits, n: nat) {
    forall run: seq<Action> :: Legal(l, Init(n), run) && Faithful(run) ==> Exclusive(Exec(l, Init(n), run))
  }

  /** Nobody ever reclaims: the directory is there exactly while its maker holds it. */
  ghost predicate Inv(l: Limits, s: State) {
    && (forall c :: 0 <= c < |s.clients| ==> !s.clients[c].Reclaiming? && !s.clients[c].Removed?)
    && (forall c :: 0 <= c < |s.clients| && s.clients[c].Holding? ==> s.dir == Some(s.clients[c].since))
    && Exclusive(s)
    && (s.dir.Some? ==> exists c :: 0 <= c < |s.clients| && s.clients[c] == Holding(s.dir.value))
    && (forall c :: 0 <= c < |s.clients| && s.clients[c].Dated? ==> s.clients[c].statAt - s.clients[c].mtime <= l.hold)
  }

  lemma InvStep(l: Limits, s: State, a: Action)
    requires l.hold + l.delay <= l.stale
    requires Inv(l, s) && Timely(l, s) && Enabled(s, a) && !a.Abandon?
    ensures Inv(l, Apply(l.stale, s, a))
  {
    var t := Apply(l.stale, s, a);
    if s.dir.Some? && !a.Unlock? {
      var h :| 0 <= h < |s.clients| && s.clients[h] == Holding(s.dir.value);
      assert t.clients[h] == Holding(s.dir.value);
    }
    if t.dir.Some? && s.dir == None {
      assert t.clients[a.c] == Holding(t.dir.value);
    }
  }

  lemma {:induction false} InvRun(l: Limits, s: State, run: seq<Action>)
    requires l.hold + l.delay <= l.stale
    requires Inv(l, s) && Legal(l, s, run) && Faithful(run)
    ensures Inv(l, Exec(l, s, run))
    decreases |run|
  {
    if |run| > 0 {
      InvStep(l, s, run[0]);
      InvRun(l, Apply(l.stale, s, run[0]), run[1..]);
    }
  }

  // --- with holders that never unlock ---

  /** Between its stat and its second mkdir. */
  predicate Reclaims(c: Client) { c.Dated? || c.Reclaiming? || c.Removed? }

  ghost predicate Solo(s: State) {
    forall c, d :: 0 <= c < d < |s.clients| ==> !(Reclaims(s.clients[c]) && Reclaims(s.clients[d]))
  }

  /** A run in which at most one client at a time is about to reclaim. */
  ghost predicate SoloRun(l: Limits, s: State, run: seq<Action>)
    requires Legal(l, s, run)
    decreases |run|
  {
    Solo(s) && (|run| > 0 ==> SoloRun(l, Apply(l.stale, s, run[0]), run[1..]))
  }

  ghost predicate NoHolder(s: State) {
    forall c :: 0 <= c < |s.clients| ==> !s.clients[c].Holding?
  }

  /** A directory that is about to be reclaimed was abandoned; a holder's is its own. */
  ghost predicate SoloInv(l: Limits, s: State) {
    && Exclusive(s)
    && (forall c :: 0 <= c < |s.clients| && s.clients[c].Holding? ==> s.dir == Some(s.clients[c].since))
    && (forall c :: 0 <= c < |s.clients| && s.clients[c].Dated? && s.clients[c].statAt - s.clients[c].mtime > l.hold ==>
          s.dir.Some? && NoHolder(s))
    && (forall c :: 0 <= c < |s.clients| && s.clients[c].Reclaiming? ==> s.dir.Some? && NoHolder(s))
  }

  lemma SoloInvStep(l: Limits, s: State, a: Action)
    requires l.hold + l.delay <= l.stale
    requires SoloInv(l, s) && Solo(s) && Timely(l, s) && Enabled(s, a)
    ensures SoloInv(l, Apply(l.stale, s, a))
  {
    match a
    case Mkdir(c) => SoloInvMake(l, s, c, if s.dir == None then Holding(s.now) else Found);
    case MkdirAgain(c) => SoloInvMake(l, s, c, if s.dir == None then Holding(s.now) else Idle);
    case Unlock(c) => SoloInvFree(l, s, c, Idle);
    case RemoveAll(c) => SoloInvFree(l, s, c, Removed);
    case _ =>
  }

  /** Either mkdir. */
  lemma SoloInvMake(l: Limits, s: State, c: nat, next: Client)
    requires SoloInv(l, s) && c < |s.clients| && !s.clients[c].Holding?
    requires if s.dir == None then next == Holding(s.now) else next.Found? || next.Idle?
    ensures SoloInv(l, s.(dir := if s.dir == None then Some(s.now) else s.dir, clients := s.clients[c := next]))
  {
  }

  /** An unlock, or the removal before the second mkdir. */
  lemma SoloInvFree(l: Limits, s: State, c: nat, next: Client)
    requires SoloInv(l, s) && Solo(s) && c < |s.clients|
    requires (s.clients[c].Holding? && next.Idle?) || (s.clients[c].Reclaiming? && next.Removed?)
    ensures SoloInv(l, s.(dir := None, clients := s.clients[c := next]))
  {
  }

  lemma {:induction false} SoloInvRun(l: Limits, s: State, run: seq<Action>)
    requires l.hold + l.delay <= l.stale
    requires SoloInv(l, s) && Legal(l, s, run) && SoloRun(l, s, run)
    ensures SoloInv(l, Exec(l, s, run))
    decreases |run|
  {
    if |run| > 0 {
      SoloInvStep(l, s, run[0]);
      SoloInvRun(l, Apply(l.stale, s, run[0]), run[1..]);
    }
  }

  lemma {:induction false} Onward(l: Limits, s: State, a: Action, t: State, rest: seq<Action>)
    requires Timely(l, s) && Enabled(s, a) && t == Apply(l.stale, s, a) && Legal(l, t, rest)
    ensures Legal(l, s, [a] + rest) && Exec(l, s, [a] + rest) == Exec(l, t, rest)
  {
    assert ([a] + rest)[1..] == rest;
  }

  lemma {:induction false} Step(l: Limits, s: State, a: Action, t: State, rest: seq<Action>)
    requires Timely(l, s) && Enabled(s, a) && t == Apply(l.stale, s, a) && Legal(l, t, rest)
    ensures Legal(l, s, [a] + rest) && Exec(l, s, [a] + rest) == Exec(l, t, rest)
    ensures Solo(s) && SoloRun(l, t, rest) ==> SoloRun(l, s, [a] + rest)
    ensures !a.Abandon? && Faithful(rest) ==> Faithful([a] + rest)
  {
    assert ([a] + rest)[1..] == rest;
  }

  /** The first two clients, and idle ones. */
  function Two(n: nat, a: Client, b: Client): seq<Client>
    requires n >= 2
  {
    [a, b] + seq(n - 2, i => Idle)
  }

  lemma TwoSet(n: nat, a: Client, b: Client, x: Client)
    requires n >= 2
    ensures Two(n, a, b)[0 := x] == Two(n, x, b) && Two(n, a, b)[1 := x] == Two(n, a, x)
    ensures seq(n, i => Idle) == Two(n, Idle, Idle)
  {
  }

  /** A client has read the age of a lock that is then released while it waits. */
  function Waiting(l: Limits, n: nat): State
    requires n >= 2
  {
    State(Two(n, Idle, Dated(0, l.hold)), None, l.hold)
  }

  /** The run in which a client too slow to act on its stat removes a lock that is not stale at all. */
  function Overtaken(l: Limits): seq<Action> {
    [Mkdir(0)] + ([Mkdir(1)] + ([Tick(l.hold)] + ([Stat(1)] + ([Unlock(0)] + Overtaking(l)))))
  }

  /** The lock is taken anew, and the waiting client removes it as stale. */
  function Overtaking(l: Limits): seq<Action> {
    [Tick(l.delay)] + ([Mkdir(0)] + Removing())
  }

  lemma {:induction false} OvertakingRun(l: Limits, n: nat)
    requires n >= 2 && l.hold + l.delay > l.stale
    ensures Legal(l, Waiting(l, n), Overtaking(l)) && !Exclusive(Exec(l, Waiting(l, n), Overtaking(l)))
    ensures SoloRun(l, Waiting(l, n), Overtaking(l)) && Faithful(Overtaking(l))
  {
    var t, d := l.hold + l.delay, Dated(0, l.hold);
    var s6 := State(Two(n, Idle, d), None, t);
    var s7 := State(Two(n, Holding(t), d), Some(t), t);
    TwoSet(n, Idle, d, Holding(t));
    RemovingRun(l, n, t);
    Step(l, s6, Mkdir(0), s7, Removing());
    Step(l, Waiting(l, n), Tick(l.delay), s6, [Mkdir(0)] + Removing());
  }

  function Removing(): seq<Action> {
    [Age(1)] + ([RemoveAll(1)] + ([MkdirAgain(1)] + []))
  }

  lemma {:induction false} RemovingRun(l: Limits, n: nat, t: int)
    requires n >= 2 && t == l.hold + l.delay > l.stale
    ensures var s := State(Two(n, Holding(t), Dated(0, l.hold)), Some(t), t);
            && Legal(l, s, Removing()) && !Exclusive(Exec(l, s, Removing()))
            && SoloRun(l, s, Removing()) && Faithful(Removing())
  {
    var h, d := Holding(t), Dated(0, l.hold);
    var s7 := State(Two(n, h, d), Some(t), t);
    var s8 := State(Two(n, h, Reclaiming), Some(t), t);
    var s9 := State(Two(n, h, Removed), None, t);
    var s10 := State(Two(n, h, h), Some(t), t);
    TwoSet(n, h, d, Reclaiming);
    TwoSet(n, h, Reclaiming, Removed);
    TwoSet(n, h, Removed, h);
    assert s10.clients[0].Holding? && s10.clients[1].Holding?;
    Step(l, s9, MkdirAgain(1), s10, []);
    Step(l, s8, RemoveAll(1), s9, [MkdirAgain(1)] + []);
    Step(l, s7, Age(1), s8, [RemoveAll(1)] + ([MkdirAgain(1)] + []));
  }

  lemma {:induction false} OvertakenRun(l: Limits, n: nat)
    requires n >= 2 && l.hold + l.delay > l.stale
    ensures Legal(l, Init(n), Overtaken(l)) && !Exclusive(Exec(l, Init(n), Overtaken(l)))
    ensures SoloRun(l, Init(n), Overtaken(l)) && Faithful(Overtaken(l))
  {
    OvertakingRun(l, n);
    var rest, d := Overtaking(l), Dated(0, l.hold);
    var s1 := State(Two(n, Holding(0), Idle), Some(0), 0);
    var s2 := State(Two(n, Holding(0), Found), Some(0), 0);
    var s3 := State(Two(n, Holding(0), Found), Some(0), l.hold);
    var s4 := State(Two(n, Holding(0), d), Some(0), l.hold);
    TwoSet(n, Idle, Idle, Holding(0));
    TwoSet(n, Holding(0), Idle, Found);
    TwoSet(n, Holding(0), Found, d);
    TwoSet(n, Holding(0), d, Idle);
    Step(l, s4, Unlock(0), Waiting(l, n), rest);
    Step(l, s3, Stat(1), s4, [Unlock(0)] + rest);
    Step(l, s2, Tick(l.hold), s3, [Stat(1)] + ([Unlock(0)] + rest));
    Step(l, s1, Mkdir(1), s2, [Tick(l.hold)] + ([Stat(1)] + ([Unlock(0)] + rest)));
    Step(l, Init(n), Mkdir(0), s1, [Mkdir(1)] + ([Tick(l.hold)] + ([Stat(1)] + ([Unlock(0)] + rest))));
  }

  /**
   * Mutual exclusion over all runs of any number of clients that all unlock holds exactly when the longest hold and the
   * longest delay between a stat and taking its age add up to no more than the stale age; or there is no
   * other client to compete with.
   */
  lemma ExclusiveExactly(l: Limits, n: nat)
    ensures AlwaysExclusive(l, n) <==> n < 2 || l.hold + l.delay <= l.stale
  {
    if l.hold + l.delay <= l.stale {
      forall run: seq<Action> | Legal(l, Init(n), run) && Faithful(run)
        ensures Exclusive(Exec(l, Init(n), run))
      {
        InvRun(l, Init(n), run);
      }
    } else if n < 2 {
      forall run: seq<Action> | Legal(l, Init(n), run)
        ensures Exclusive(Exec(l, Init(n), run))
      {
        SameClients(l, Init(n), run);
      }
    } else {
      OvertakenRun(l, n);
    }
  }

  lemma {:induction false} SameClients(l: Limits, s: State, run: seq<Action>)
    requires Legal(l, s, run)
    ensures |Exec(l, s, run).clients| == |s.clients|
    decreases |run|
  {
    if |run| > 0 {
      SameClients(l, Apply(l.stale, s, run[0]), run[1..]);
    }
  }

  ghost predicate AlwaysExclusiveSolo(l: Limits, n: nat) {
    forall run: seq<Action> :: Legal(l, Init(n), run) && SoloRun(l, Init(n), run) ==> Exclusive(Exec(l, Init(n), run))
  }

  /**
   * With holders that never unlock, so that locks are reclaimed, the live ones still exclude each other under
   * the same condition, as long as at most one client at a time is about to reclaim.
   */
  lemma SoloExclusiveExactly(l: Limits, n: nat)
    ensures AlwaysExclusiveSolo(l, n) <==> n < 2 || l.hold + l.delay <= l.stale
  {
    if l.hold + l.delay <= l.stale {
      forall run: seq<Action> | Legal(l, Init(n), run) && SoloRun(l, Init(n), run)
        ensures Exclusive(Exec(l, Init(n), run))
      {
        SoloInvRun(l, Init(n), run);
      }
    } else if n < 2 {
      forall run: seq<Action> | Legal(l, Init(n), run)
        ensures Exclusive(Exec(l, Init(n), run))
      {
        SameClients(l, Init(n), run);
      }
    } else {
      OvertakenRun(l, n);
    }
  }

  /** What an idle client does to get the lock when it meets a directory. */
  function Attempt(c: nat): seq<Action> {
    [Mkdir(c)] + ([Stat(c)] + ([Age(c)] + ([RemoveAll(c)] + ([MkdirAgain(c)] + []))))
  }

  /** And an abandoned lock does not block it for longer than the stale age. */
  lemma {:induction false} ReclaimWorks(l: Limits, s: State, c: nat)
    requires Timely(l, s) && c < |s.clients| && s.clients[c].Idle? && s.dir.Some? && s.now - s.dir.value > l.stale
    ensures Legal(l, s, Attempt(c))
    ensures Exec(l, s, Attempt(c)) == State(s.clients[c := Holding(s.now)], Some(s.now), s.now)
  {
    var s1 := s.(clients := s.clients[c := Found]);
    var s2 := s.(clients := s.clients[c := Dated(s.dir.value, s.now)]);
    var s3 := s.(clients := s.clients[c := Reclaiming]);
    var s4 := State(s.clients[c := Removed], None, s.now);
    var s5 := State(s.clients[c := Holding(s.now)], Some(s.now), s.now);
    assert s1.clients[c := Dated(s.dir.value, s.now)] == s2.clients && s2.clients[c := Reclaiming] == s3.clients;
    assert s3.clients[c := Removed] == s4.clients && s4.clients[c := Holding(s.now)] == s5.clients;
    Onward(l, s4, MkdirAgain(c), s5, []);
    Onward(l, s3, RemoveAll(c), s4, [MkdirAgain(c)] + []);
    Onward(l, s2, Age(c), s3, [RemoveAll(c)] + ([MkdirAgain(c)] + []));
    Onward(l, s1, Stat(c), s2, [Age(c)] + ([RemoveAll(c)] + ([MkdirAgain(c)] + [])));
    Onward(l, s, Mkdir(c), s1, [Stat(c)] + ([Age(c)] + ([RemoveAll(c)] + ([MkdirAgain(c)] + []))));
  }

  /** Two clients that reclaim at once: the second removes the directory the first has just made. */
  function Racing(): seq<Action> {
    [RemoveAll(0)] + ([MkdirAgain(0)] + ([RemoveAll(1)] + ([MkdirAgain(1)] + [])))
  }

  function Dating(): seq<Action> {
    [Stat(0)] + ([Stat(1)] + ([Age(0)] + ([Age(1)] + Racing())))
  }

  function TwoReclaimers(wait: nat): seq<Action> {
    [Mkdir(0)] + ([Abandon(0)] + ([Tick(wait)] + ([Mkdir(0)] + ([Mkdir(1)] + Dating()))))
  }

  lemma {:induction false} RacingRun(l: Limits, n: nat, now: int)
    requires n >= 2
    ensures var s := State(Two(n, Reclaiming, Reclaiming), Some(0), now);
            Legal(l, s, Racing()) && !Exclusive(Exec(l, s, Racing()))
  {
    var s0 := State(Two(n, Reclaiming, Reclaiming), Some(0), now);
    var s1 := State(Two(n, Removed, Reclaiming), None, now);
    var s2 := State(Two(n, Holding(now), Reclaiming), Some(now), now);
    var s3 := State(Two(n, Holding(now), Removed), None, now);
    var s4 := State(Two(n, Holding(now), Holding(now)), Some(now), now);
    TwoSet(n, Reclaiming, Reclaiming, Removed);
    TwoSet(n, Removed, Reclaiming, Holding(now));
    TwoSet(n, Holding(now), Reclaiming, Removed);
    TwoSet(n, Holding(now), Removed, Holding(now));
    assert s4.clients[0].Holding? && s4.clients[1].Holding?;
    Onward(l, s3, MkdirAgain(1), s4, []);
    Onward(l, s2, RemoveAll(1), s3, [MkdirAgain(1)] + []);
    Onward(l, s1, MkdirAgain(0), s2, [RemoveAll(1)] + ([MkdirAgain(1)] + []));
    Onward(l, s0, RemoveAll(0), s1, [MkdirAgain(0)] + ([RemoveAll(1)] + ([MkdirAgain(1)] + [])));
  }

  lemma {:induction false} DatingRun(l: Limits, n: nat, now: int)
    requires n >= 2 && now > l.stale
    ensures var s := State(Two(n, Found, Found), Some(0), now);
            Legal(l, s, Dating()) && !Exclusive(Exec(l, s, Dating()))
  {
    var d := Dated(0, now);
    var s0 := State(Two(n, Found, Found), Some(0), now);
    var s1 := State(Two(n, d, Found), Some(0), now);
    var s2 := State(Two(n, d, d), Some(0), now);
    var s3 := State(Two(n, Reclaiming, d), Some(0), now);
    var s4 := State(Two(n, Reclaiming, Reclaiming), Some(0), now);
    TwoSet(n, Found, Found, d);
    TwoSet(n, d, Found, d);
    TwoSet(n, d, d, Reclaiming);
    TwoSet(n, Reclaiming, d, Reclaiming);
    RacingRun(l, n, now);
    Onward(l, s3, Age(1), s4, Racing());
    Onward(l, s2, Age(0), s3, [Age(1)] + Racing());
    Onward(l, s1, Stat(1), s2, [Age(0)] + ([Age(1)] + Racing()));
    Onward(l, s0, Stat(0), s1, [Stat(1)] + ([Age(0)] + ([Age(1)] + Racing())));
  }

  /** Without that restriction no limits help: this run of two clients ends with two holders. */
  lemma {:induction false} TwoReclaimersRun(l: Limits, n: nat)
    requires n >= 2
    ensures var run := TwoReclaimers(if l.stale < 0 then 0 else l.stale + 1);
            Legal(l, Init(n), run) && !Exclusive(Exec(l, Init(n), run))
  {
    var wait := if l.stale < 0 then 0 else l.stale + 1;
    var s0 := Init(n);
    var s1 := State(Two(n, Holding(0), Idle), Some(0), 0);
    var s2 := State(Two(n, Idle, Idle), Some(0), 0);
    var s3 := State(Two(n, Idle, Idle), Some(0), wait);
    TwoSet(n, Idle, Idle, Holding(0));
    TwoSet(n, Holding(0), Idle, Idle);
    AbandonedRun(l, n, wait);
    Onward(l, s2, Tick(wait), s3, [Mkdir(0)] + ([Mkdir(1)] + Dating()));
    Onward(l, s1, Abandon(0), s2, [Tick(wait)] + ([Mkdir(0)] + ([Mkdir(1)] + Dating())));
    Onward(l, s0, Mkdir(0), s1, [Abandon(0)] + ([Tick(wait)] + ([Mkdir(0)] + ([Mkdir(1)] + Dating()))));
  }

  lemma {:induction false} AbandonedRun(l: Limits, n: nat, wait: nat)
    requires n >= 2 && wait > l.stale
    ensures var s, run := State(Two(n, Idle, Idle), Some(0), wait), [Mkdir(0)] + ([Mkdir(1)] + Dating());
            Legal(l, s, run) && !Exclusive(Exec(l, s, run))
  {
    var s3 := State(Two(n, Idle, Idle), Some(0), wait);
    var s4 := State(Two(n, Found, Idle), Some(0), wait);
    var s5 := State(Two(n, Found, Found), Some(0), wait);
    TwoSet(n, Idle, Idle, Found);
    TwoSet(n, Found, Idle, Found);
    DatingRun(l, n, wait);
    Onward(l, s4, Mkdir(1), s5, Dating());
    Onward(l, s3, Mkdir(0), s4, [Mkdir(1)] + Dating());
  }

  // --- handlers that run without interruption ---

  /** A request to the server; a finalize that releases the lock is a Release. */
  datatype Call = Lock(now: int, staleSec: int) | Release

  /** A grant that no unlock has followed before request n. */
  ghost predicate Outstanding(calls: seq<Call>, granted: seq<bool>, i: nat, n: nat)
    requires |granted| <= |calls|
  {
    && i < |granted| && i < n <= |calls| && calls[i].Lock? && granted[i]
    && forall k :: i < k < n ==> calls[k].Lock?
  }

  /** The clock does not run backwards. */
  ghost predicate InOrder(calls: seq<Call>) {
    forall i, j :: 0 <= i < j < |calls| && calls[i].Lock? && calls[j].Lock? ==> calls[i].now <= calls[j].now
  }

  class LockDir {
    var mtime: Option<int>

    constructor ()
      ensures mtime == None
    {
      mtime := None;
    }

    /** doLock with the whole handler as one step. */
    method DoLock(now: int, staleSec: int) returns (acquired: bool)
      modifies this
      ensures acquired <==> old(mtime) == None || now - old(mtime).value > staleSec
      ensures mtime == if acquired then Some(now) else old(mtime)
    {
      acquired := false;
      if mtime == None {
        mtime := Some(now);
        acquired := true;
      } else if now - mtime.value > staleSec {
        mtime := None;
        mtime := Some(now);
        acquired := true;
      }
    }

    /** doUnlock, and the release in doServerFinalize. */
    method DoUnlock()
      modifies this
      ensures mtime == None
    {
      mtime := None;
    }
  }

  /** The directory is the latest grant that was not unlocked. */
  ghost predicate DirIsLatest(calls: seq<Call>, granted: seq<bool>, mtime: Option<int>)
    requires |granted| <= |calls|
  {
    match mtime
    case None => forall i: nat :: !Outstanding(calls, granted, i, |granted|)
    case Some(m) =>
      && (exists i: nat :: Outstanding(calls, granted, i, |granted|) && calls[i].now == m)
      && (forall i: nat :: Outstanding(calls, granted, i, |granted|) ==> calls[i].now <= m)
  }

  lemma UnlockedDir(calls: seq<Call>, granted: seq<bool>)
    requires |granted| < |calls| && calls[|granted|].Release?
    ensures DirIsLatest(calls, granted + [false], None)
  {
    var longer := granted + [false];
    var n := |longer|;
    forall i: nat
      ensures !Outstanding(calls, longer, i, n)
    {
    }
  }

  lemma LockedDir(calls: seq<Call>, granted: seq<bool>, mtime: Option<int>, grant: bool)
    requires |granted| < |calls| && calls[|granted|].Lock? && InOrder(calls) && DirIsLatest(calls, granted, mtime)
    requires mtime == None ==> grant
    ensures DirIsLatest(calls, granted + [grant], if grant then Some(calls[|granted|].now) else mtime)
  {
    var n, longer := |granted|, granted + [grant];
    forall i: nat
      ensures Outstanding(calls, longer, i, n + 1) <==> (i == n && grant) || Outstanding(calls, granted, i, n)
    {
    }
    if grant {
      assert Outstanding(calls, longer, n, n + 1);
    } else {
      var i: nat :| Outstanding(calls, granted, i, n) && calls[i].now == mtime.value;
      assert Outstanding(calls, longer, i, n + 1);
    }
  }

  /**
   * Any sequence of handler calls: a lock is granted exactly when every earlier grant was unlocked since or
   * is older than the stale age asked for. So between two grants there is an unlock or more than that time.
   */
  method GrantsSeparated(calls: seq<Call>) returns (granted: seq<bool>)
    requires InOrder(calls)
    ensures |granted| == |calls|
    ensures forall j :: 0 <= j < |calls| ==>
              (granted[j] <==> && calls[j].Lock?
                               && forall i: nat :: Outstanding(calls, granted, i, j) ==> calls[j].now - calls[i].now > calls[j].staleSec)
    ensures forall i, j :: 0 <= i < j < |calls| && granted[i] && granted[j] ==>
              (exists k :: i < k < j && calls[k].Release?) || calls[j].now - calls[i].now > calls[j].staleSec
  {
    var dir := new LockDir();
    granted := [];
    assert DirIsLatest(calls, granted, dir.mtime);
    while |granted| < |calls|
      invariant |granted| <= |calls| && DirIsLatest(calls, granted, dir.mtime)
      invariant forall j :: 0 <= j < |granted| ==> (granted[j] <==> Due(calls, granted, j))
    {
      ghost var before, mtime := granted, dir.mtime;
      var grant := false;
      match calls[|granted|] {
        case Lock(now, staleSec) =>
          grant := dir.DoLock(now, staleSec);
          LockedDir(calls, granted, mtime, grant);
        case Release =>
          dir.DoUnlock();
          UnlockedDir(calls, granted);
      }
      assert grant <==> Due(calls, before, |before|);
      granted := granted + [grant];
      DueLater(calls, before, grant);
    }
    forall i: nat, j: nat | i < j < |calls| && granted[i] && granted[j] && forall k :: i < k < j ==> !calls[k].Release?
      ensures calls[j].now - calls[i].now > calls[j].staleSec
    {
      assert Due(calls, granted, j) && Due(calls, granted, i);
      assert Outstanding(calls, granted, i, j);
    }
  }

  ghost predicate Due(calls: seq<Call>, granted: seq<bool>, j: nat)
    requires j < |calls| && |granted| <= |calls|
  {
    calls[j].Lock? && forall i: nat :: Outstanding(calls, granted, i, j) ==> calls[j].now - calls[i].now > calls[j].staleSec
  }

  lemma DueLater(calls: seq<Call>, granted: seq<bool>, grant: bool)
    requires |granted| < |calls|
    ensures forall j: nat :: j <= |granted| ==> (Due(calls, granted + [grant], j) <==> Due(calls, granted, j))
  {
    forall i: nat, j: nat | j <= |granted|
      ensures Outstanding(calls, granted + [grant], i, j) <==> Outstanding(calls, granted, i, j)
    {
    }
  }
}
