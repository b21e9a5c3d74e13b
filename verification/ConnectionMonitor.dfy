/**
 * The health monitor. A probe is suspended at each of its awaits, and every method here is what runs
 * between two awaits, so any sequence of calls is a run of the event loop.
 */
module ConnectionMonitor {
  import opened Basics

  const MIN_PROBE_GAP_MS: int := 15_000

  /** A SOCKS forward process and the local port it was started on. */
  datatype Process = Process(id: nat, port: int)

  /** Where a running probe is suspended. */
  datatype Probe =
    | SessionExec
    | AliveExec
    | RepairExec(forwardAlive: bool, serverAlive: bool)
    | FindPort(serverAlive: bool)
    | WaitPort(started: Process, serverAlive: bool)
    | Returned  // its promise has settled; `finally` is still to run

  datatype Event = Started(at: int) | Closed  // a probe's start; the close of the repaired forward in use

  /** The time the debounce compares with, and when each probe may start. */
  function LastProbe(trace: seq<Event>): int {
    if |trace| == 0 || trace[|trace| - 1].Closed? then 0 else trace[|trace| - 1].at
  }

  ghost predicate Debounced(trace: seq<Event>)
    decreases |trace|
  {
    |trace| == 0 || (
      var front, e := trace[..|trace| - 1], trace[|trace| - 1];
      Debounced(front) && (e.Started? ==> e.at - LastProbe(front) >= MIN_PROBE_GAP_MS))
  }

  /** Probe starts are at least fifteen seconds apart unless a repaired forward closed in between. */
  lemma {:induction false} ProbesApart(trace: seq<Event>, i: nat, j: nat)
    requires Debounced(trace) && i < j < |trace| && trace[i].Started? && trace[j].Started?
    requires forall k :: i < k < j ==> !trace[k].Closed?
    ensures trace[j].at - trace[i].at >= MIN_PROBE_GAP_MS
    decreases |trace|, j
  {
    var front := trace[..|trace| - 1];
    if j < |trace| - 1 {
      ProbesApart(front, i, j);
    } else if i < j - 1 {
      ProbesApart(front, i, j - 1);
    }
  }

  lemma {:induction false} DebouncedSnoc(trace: seq<Event>, e: Event)
    requires Debounced(trace) && (e.Started? ==> e.at - LastProbe(trace) >= MIN_PROBE_GAP_MS)
    ensures Debounced(trace + [e]) && LastProbe(trace + [e]) == if e.Closed? then 0 else e.at
  {
    assert (trace + [e])[..|trace|] == trace;
  }

  /** The monitor between two calls. */
  datatype View = View(dead: bool, socksPort: int, forward: Option<Process>, stopped: bool, lastProbeAt: int,
                       probes: seq<Probe>, watched: set<Process>, trace: seq<Event>)

  class Monitor {
    const isSession: bool
    const ownsServer: bool
    var dead: bool
    var socksPort: int
    var forward: Option<Process>
    var stopped: bool
    var lastProbeAt: int
    var inFlight: bool
    var probes: seq<Probe>    // invocations of probeAndRepair that have not finished
    var watched: set<Process> // repaired forwards with a close listener
    ghost var trace: seq<Event>

    /** At most one probe, hence at most one restart; port and process from one start; debounced starts. */
    ghost predicate Valid()
      reads this
    {
      && |probes| == (if inFlight then 1 else 0)
      && (forward.Some? ==> forward.value.port == socksPort)
      && Debounced(trace)
      && lastProbeAt == LastProbe(trace)
    }

    ghost function Now(): View
      reads this
    {
      View(dead, socksPort, forward, stopped, lastProbeAt, probes, watched, trace)
    }

    constructor (isSession: bool, ownsServer: bool, socksPort: int, forward: Option<Process>)
      requires forward.Some? ==> forward.value.port == socksPort
      ensures Valid() && this.isSession == isSession && this.ownsServer == ownsServer
      ensures Now() == View(false, socksPort, forward, false, 0, [], {}, [])
    {
      this.isSession, this.ownsServer, this.socksPort, this.forward := isSession, ownsServer, socksPort, forward;
      dead, stopped, lastProbeAt, inFlight, probes, watched, trace := false, false, 0, false, [], {}, [];
    }

    /** triggerProbe, and probeAndRepair up to its first await; the last two arguments are isAlive's answers. */
    method TriggerProbe(now: int, forwardAlive: bool, serverProcessAlive: bool) returns (started: bool)
      requires Valid()
      modifies this`lastProbeAt, this`inFlight, this`probes, this`trace
      ensures Valid()
      ensures started <==> !dead && !old(inFlight) && now - old(lastProbeAt) >= MIN_PROBE_GAP_MS
      ensures trace == old(trace) + if started then [Started(now)] else []
      ensures !started ==> probes == old(probes) && inFlight == old(inFlight)
      ensures lastProbeAt == if started then now else old(lastProbeAt)
      ensures started ==>
                var serverAlive := !ownsServer || serverProcessAlive;
                probes == [if isSession then SessionExec
                           else if forwardAlive && serverAlive then AliveExec
                           else RepairExec(forwardAlive, serverAlive)]
    {
      assert trace + [] == trace;
      if dead { return false; }
      if inFlight { return false; }
      if now - lastProbeAt < MIN_PROBE_GAP_MS { return false; }
      lastProbeAt := now;
      DebouncedSnoc(trace, Started(now));
      trace := trace + [Started(now)];
      var serverAlive := if ownsServer then serverProcessAlive else true;
      var probe := if isSession then SessionExec
                   else if forwardAlive && serverAlive then AliveExec
                   else RepairExec(forwardAlive, serverAlive);
      probes := probes + [probe];
      inFlight := true;
      started := true;
    }

    /** The periodic tick: nothing once stopped or dead. */
    method Tick(now: int, forwardAlive: bool, serverProcessAlive: bool) returns (started: bool)
      requires Valid()
      modifies this`lastProbeAt, this`inFlight, this`probes, this`trace
      ensures Valid()
      ensures started <==> !stopped && !dead && !old(inFlight) && now - old(lastProbeAt) >= MIN_PROBE_GAP_MS
      ensures !started ==> probes == old(probes) && inFlight == old(inFlight)
      ensures trace == old(trace) + if started then [Started(now)] else []
      ensures lastProbeAt == if started then now else old(lastProbeAt)
      ensures started ==>
                var serverAlive := !ownsServer || serverProcessAlive;
                probes == [if isSession then SessionExec
                           else if forwardAlive && serverAlive then AliveExec
                           else RepairExec(forwardAlive, serverAlive)]
    {
      if stopped || dead {
        assert trace + [] == trace;
        return false;
      }
      started := TriggerProbe(now, forwardAlive, serverProcessAlive);
    }

    /** sshAlive answered for a suspended probe. */
    method SshAnswered(i: nat, alive: bool)
      requires Valid() && i < |probes| && (probes[i].SessionExec? || probes[i].AliveExec? || probes[i].RepairExec?)
      modifies this`dead, this`probes
      ensures Valid() && (old(dead) ==> dead)
      ensures !alive ==> dead && probes == [Returned]
      ensures alive && !old(probes)[i].RepairExec? ==> dead == old(dead) && probes == [Returned]
      ensures alive && old(probes)[i].RepairExec? && !old(probes)[i].forwardAlive ==>
                dead == old(dead) && probes == [FindPort(old(probes)[i].serverAlive)]
      ensures alive && old(probes)[i].RepairExec? && old(probes)[i].forwardAlive ==>
                probes == [Returned] && dead == (old(dead) || !old(probes)[i].serverAlive)
    {
      var probe := probes[i];
      if !alive {
        dead := true;
        probes := probes[i := Returned];
      } else if probe.RepairExec? && !probe.forwardAlive {
        probes := probes[i := FindPort(probe.serverAlive)];
      } else {
        if probe.RepairExec? && !probe.serverAlive {
          dead := true;
        }
        probes := probes[i := Returned];
      }
    }

    /** restartForward: a free port was found and a forward started on it. */
    method ForwardStarted(i: nat, port: int, id: nat)
      requires Valid() && i < |probes| && probes[i].FindPort?
      modifies this`probes
      ensures Valid() && probes == [WaitPort(Process(id, port), old(probes)[i].serverAlive)]
    {
      probes := probes[i := WaitPort(Process(id, port), probes[i].serverAlive)];
    }

    /** The new forward accepts connections: it replaces the old one, port and process together. */
    method ForwardReady(i: nat)
      requires Valid() && i < |probes| && probes[i].WaitPort?
      modifies this`dead, this`probes, this`socksPort, this`forward, this`watched
      ensures Valid() && probes == [Returned]
      ensures forward == Some(old(probes)[i].started) && socksPort == old(probes)[i].started.port
      ensures watched == old(watched) + {old(probes)[i].started}
      ensures dead == (old(dead) || !old(probes)[i].serverAlive)
    {
      var WaitPort(started, serverAlive) := probes[i];
      socksPort := started.port;
      forward := Some(started);
      watched := watched + {started};
      if !serverAlive {
        dead := true;
      }
      probes := probes[i := Returned];
    }

    /** Finding a port, starting or waiting for the forward threw: the old port and process stay. */
    method RestartFailed(i: nat)
      requires Valid() && i < |probes| && (probes[i].FindPort? || probes[i].WaitPort?)
      modifies this`dead, this`probes
      ensures Valid() && dead && probes == [Returned]
    {
      dead := true;
      probes := probes[i := Returned];
    }

    method Finally(i: nat)
      requires Valid() && i < |probes| && probes[i].Returned?
      modifies this`inFlight, this`probes
      ensures Valid() && !inFlight && probes == []
    {
      inFlight := false;
      probes := probes[..i] + probes[i + 1..];
    }

    /** A repaired forward's close listener; it re-probes at once if that forward is still the one in use. */
    method ForwardClosed(p: Process, now: int, serverProcessAlive: bool) returns (started: bool)
      requires Valid() && p in watched
      modifies this`lastProbeAt, this`inFlight, this`probes, this`trace, this`watched
      ensures Valid() && watched == old(watched) - {p}
      ensures started <==> !dead && forward == Some(p) && !old(inFlight) && now >= MIN_PROBE_GAP_MS
      ensures started ==> probes == [if isSession then SessionExec else RepairExec(false, !ownsServer || serverProcessAlive)]
      ensures !started ==> probes == old(probes)
      ensures lastProbeAt == if started then now else if !dead && forward == Some(p) then 0 else old(lastProbeAt)
      ensures trace == old(trace) + (if !dead && forward == Some(p) then [Closed] else []) + if started then [Started(now)] else []
    {
      watched := watched - {p};
      if dead || forward != Some(p) {
        assert trace + [] + [] == trace;
        return false;
      }
      lastProbeAt := 0;
      DebouncedSnoc(trace, Closed);
      trace := trace + [Closed];
      started := TriggerProbe(now, false, serverProcessAlive);
    }

    /** Something else gave up on the connection. */
    method MarkDead()
      requires Valid()
      modifies this`dead
      ensures Valid() && dead
    {
      dead := true;
    }

    method Stop()
      requires Valid()
      modifies this`stopped
      ensures Valid() && stopped
    {
      stopped := true;
    }
  }

  /** What may happen next, with everything the environment decides. */
  datatype Call =
    | Tick(now: int, forwardAlive: bool, serverAlive: bool)
    | Wake(now: int, forwardAlive: bool, serverAlive: bool)  // sleep detected, or focus regained after a gap
    | Ssh(i: nat, alive: bool)
    | Start(i: nat, port: int, id: nat)
    | Ready(i: nat)
    | Fail(i: nat)
    | Final(i: nat)
    | Close(p: Process, now: int, serverAlive: bool)
    | Dead
    | Stop

  /** A probe that starts, or not: at what `now` says, with what isAlive answers for the two processes. */
  ghost predicate Probing(isSession: bool, ownsServer: bool, v: View, now: int, forwardAlive: bool, server: bool, w: View) {
    if v.dead || v.probes != [] || now - v.lastProbeAt < MIN_PROBE_GAP_MS then w == v
    else
      var serverAlive := !ownsServer || server;
      w == v.(lastProbeAt := now, trace := v.trace + [Started(now)],
              probes := [if isSession then SessionExec
                         else if forwardAlive && serverAlive then AliveExec
                         else RepairExec(forwardAlive, serverAlive)])
  }

  predicate AsksSsh(p: Probe) {
    p.SessionExec? || p.AliveExec? || p.RepairExec?
  }

  /** What makes a connection dead: the word of others, ssh, a failed restart, or a server found dead. */
  ghost predicate GivesUp(v: View, c: Call) {
    || c.Dead?
    || (v.probes != [] &&
        match (v.probes[0], c)
        case (RepairExec(forwardAlive, serverAlive), Ssh(0, alive)) => !alive || (forwardAlive && !serverAlive)
        case (SessionExec, Ssh(0, alive)) => !alive
        case (AliveExec, Ssh(0, alive)) => !alive
        case (FindPort(_), Fail(0)) => true
        case (WaitPort(_, _), Fail(0)) => true
        case (WaitPort(_, serverAlive), Ready(0)) => !serverAlive
        case _ => false)
  }

  /** One turn of the event loop between two views of the monitor; a call that cannot happen now does nothing. */
  ghost predicate Step(isSession: bool, ownsServer: bool, v: View, c: Call, w: View) {
    && |w.probes| <= 1 && (w.dead <==> v.dead || GivesUp(v, c))
    && match c
       case Tick(now, f, s) => if v.stopped then w == v else Probing(isSession, ownsServer, v, now, f, s, w)
       case Wake(now, f, s) => Probing(isSession, ownsServer, v, now, f, s, w)
       case Ssh(i, alive) =>
         if i >= |v.probes| || !AsksSsh(v.probes[i]) then w == v
         else
           var p := v.probes[i];
           w == v.(dead := w.dead,
                   probes := if alive && p.RepairExec? && !p.forwardAlive then [FindPort(p.serverAlive)] else [Returned])
       case Start(i, port, id) =>
         if i >= |v.probes| || !v.probes[i].FindPort? then w == v
         else w == v.(probes := [WaitPort(Process(id, port), v.probes[i].serverAlive)])
       case Ready(i) =>
         if i >= |v.probes| || !v.probes[i].WaitPort? then w == v
         else
           var p := v.probes[i].started;
           w == v.(dead := w.dead, probes := [Returned], forward := Some(p), socksPort := p.port, watched := v.watched + {p})
       case Fail(i) =>
         if i >= |v.probes| || !(v.probes[i].FindPort? || v.probes[i].WaitPort?) then w == v
         else w == v.(dead := true, probes := [Returned])
       case Final(i) => w == if i < |v.probes| && v.probes[i].Returned? then v.(probes := []) else v
       case Close(p, now, s) =>
         if p !in v.watched then w == v
         else
           var u := v.(watched := v.watched - {p});
           if v.dead || v.forward != Some(p) then w == u
           else Probing(isSession, ownsServer, u.(lastProbeAt := 0, trace := u.trace + [Closed]), now, false, s, w)
       case Dead => w == v.(dead := true)
       case Stop => w == v.(stopped := true)
  }

  method Turn(m: Monitor, c: Call)
    requires m.Valid()
    modifies m
    ensures m.Valid() && Step(m.isSession, m.ownsServer, old(m.Now()), c, m.Now())
  {
    if c.Close? {
      if c.p in m.watched { var _ := m.ForwardClosed(c.p, c.now, c.serverAlive); }
    } else if c.Tick? || c.Wake? || c.Dead? || c.Stop? {
      Outside(m, c);
    } else {
      Resume(m, c);
    }
  }

  method Outside(m: Monitor, c: Call)
    requires m.Valid() && (c.Tick? || c.Wake? || c.Dead? || c.Stop?)
    modifies m
    ensures m.Valid() && Step(m.isSession, m.ownsServer, old(m.Now()), c, m.Now())
  {
    match c
    case Tick(now, f, s) => var _ := m.Tick(now, f, s);
    case Wake(now, f, s) => var _ := m.TriggerProbe(now, f, s);
    case Dead => m.MarkDead();
    case Stop => m.Stop();
  }

  /** A suspended probe goes on, if it waits for this. */
  method Resume(m: Monitor, c: Call)
    requires m.Valid() && (c.Ssh? || c.Start? || c.Ready? || c.Fail? || c.Final?)
    modifies m
    ensures m.Valid() && Step(m.isSession, m.ownsServer, old(m.Now()), c, m.Now())
  {
    match c
    case Ssh(i, alive) => if i < |m.probes| && AsksSsh(m.probes[i]) { m.SshAnswered(i, alive); }
    case Start(i, port, id) => if i < |m.probes| && m.probes[i].FindPort? { m.ForwardStarted(i, port, id); }
    case Ready(i) => if i < |m.probes| && m.probes[i].WaitPort? { m.ForwardReady(i); }
    case Fail(i) => if i < |m.probes| && (m.probes[i].FindPort? || m.probes[i].WaitPort?) { m.RestartFailed(i); }
    case Final(i) => if i < |m.probes| && m.probes[i].Returned? { m.Finally(i); }
  }

  // --- runs ---

  /** The views of a run, one before each call and one after the last. */
  ghost predicate Behaviour(isSession: bool, ownsServer: bool, calls: seq<Call>, views: seq<View>) {
    && |views| == |calls| + 1
    && forall k: nat :: k < |calls| ==> Step(isSession, ownsServer, views[k], calls[k], views[k + 1])
  }

  lemma BehaviourSnoc(isSession: bool, ownsServer: bool, calls: seq<Call>, views: seq<View>, c: Call, v: View)
    requires Behaviour(isSession, ownsServer, calls, views) && Step(isSession, ownsServer, views[|calls|], c, v)
    ensures Behaviour(isSession, ownsServer, calls + [c], views + [v])
  {
    var more, last := calls + [c], views + [v];
    forall k: nat | k < |more|
      ensures Step(isSession, ownsServer, last[k], more[k], last[k + 1])
    {
      if k < |calls| {
        assert Step(isSession, ownsServer, views[k], calls[k], views[k + 1]);
      }
    }
  }

  /** What is dead stays dead, and starts no probe any more. */
  lemma {:induction false} DeadForGood(isSession: bool, ownsServer: bool, calls: seq<Call>, views: seq<View>, k: nat, j: nat)
    requires Behaviour(isSession, ownsServer, calls, views) && k <= j < |views| && views[k].dead
    ensures views[j].dead && views[j].trace == views[k].trace
    decreases j
  {
    if k < j {
      DeadForGood(isSession, ownsServer, calls, views, k, j - 1);
      assert Step(isSession, ownsServer, views[j - 1], calls[j - 1], views[j]);
    }
  }

  /** A call that a suspended probe waits for. */
  predicate Concerns(p: Probe, c: Call) {
    match p
    case FindPort(_) => (c.Start? || c.Fail?) && c.i == 0
    case WaitPort(_, _) => (c.Ready? || c.Fail?) && c.i == 0
    case Returned => c == Final(0)
    case _ => c.Ssh? && c.i == 0
  }

  /** A probe stays where it is until the call it waits for. */
  lemma {:induction false} ProbeWaits(isSession: bool, ownsServer: bool, calls: seq<Call>, views: seq<View>, k: nat, j: nat, p: Probe)
    requires Behaviour(isSession, ownsServer, calls, views) && k <= j < |views| && views[k].probes == [p]
    requires forall n: nat :: k <= n < j ==> !Concerns(p, calls[n])
    ensures views[j].probes == [p]
    decreases j
  {
    if k < j {
      ProbeWaits(isSession, ownsServer, calls, views, k, j - 1, p);
      assert Step(isSession, ownsServer, views[j - 1], calls[j - 1], views[j]);
      assert !Concerns(p, calls[j - 1]);
    }
  }

  /**
   * A repaired forward in use that closes is repaired: if no probe is running, the answer of ssh starts a
   * new one, and when that accepts connections it is the one in use. Other calls may come in between.
   */
  lemma ClosedForwardRepaired(ownsServer: bool, calls: seq<Call>, views: seq<View>, at: seq<nat>,
                              p: Process, now: int, server: bool, port: int, id: nat)
    requires Behaviour(false, ownsServer, calls, views)
    requires |at| == 4 && at[0] < at[1] < at[2] < at[3] < |calls|
    requires !views[at[0]].dead && views[at[0]].forward == Some(p) && p in views[at[0]].watched && views[at[0]].probes == []
    requires calls[at[0]] == Close(p, now, server) && now >= 15_000
    requires calls[at[1]] == Ssh(0, true) && forall n: nat :: at[0] < n < at[1] ==> calls[n] != Ssh(0, true) && calls[n] != Ssh(0, false)
    requires calls[at[2]] == Start(0, port, id) && forall n: nat :: at[1] < n < at[2] ==> !((calls[n].Start? || calls[n].Fail?) && calls[n].i == 0)
    requires calls[at[3]] == Ready(0) && forall n: nat :: at[2] < n < at[3] ==> !((calls[n].Ready? || calls[n].Fail?) && calls[n].i == 0)
    ensures views[at[1] + 1].probes == [FindPort(!ownsServer || server)]
    ensures views[at[3] + 1].forward == Some(Process(id, port)) && views[at[3] + 1].socksPort == port
    ensures ownsServer && !server ==> views[at[3] + 1].dead
  {
    var serverAlive := !ownsServer || server;
    assert Step(false, ownsServer, views[at[0]], calls[at[0]], views[at[0] + 1]);
    ProbeWaits(false, ownsServer, calls, views, at[0] + 1, at[1], RepairExec(false, serverAlive));
    assert Step(false, ownsServer, views[at[1]], calls[at[1]], views[at[1] + 1]);
    ProbeWaits(false, ownsServer, calls, views, at[1] + 1, at[2], FindPort(serverAlive));
    assert Step(false, ownsServer, views[at[2]], calls[at[2]], views[at[2] + 1]);
    ProbeWaits(false, ownsServer, calls, views, at[2] + 1, at[3], WaitPort(Process(id, port), serverAlive));
    assert Step(false, ownsServer, views[at[3]], calls[at[3]], views[at[3] + 1]);
  }

  /**
   * Every run is a behaviour: what each call makes of the monitor is told by the view before it. So there
   * is never more than one probe, hence never two restarts; the port is always that of the process; any two
   * probe starts with no close between them are fifteen seconds apart; and what is dead stays so.
   */
  method Run(isSession: bool, ownsServer: bool, port: int, forward: Option<Process>, calls: seq<Call>)
    returns (ghost views: seq<View>, socksPort: int, inUse: Option<Process>, dead: bool)
    requires forward.Some? ==> forward.value.port == port
    ensures |views| == |calls| + 1 && views[0] == View(false, port, forward, false, 0, [], {}, [])
    ensures Behaviour(isSession, ownsServer, calls, views)
    ensures socksPort == views[|calls|].socksPort && inUse == views[|calls|].forward && dead == views[|calls|].dead
    ensures inUse.Some? ==> inUse.value.port == socksPort
    ensures dead <==> exists k: nat :: k < |calls| && GivesUp(views[k], calls[k])
    ensures var trace := views[|calls|].trace;
            forall i, j ::
              (0 <= i < j < |trace| && trace[i].Started? && trace[j].Started? && forall k :: i < k < j ==> !trace[k].Closed?)
              ==> trace[j].at - trace[i].at >= 15_000
  {
    var m := new Monitor(isSession, ownsServer, port, forward);
    views := [m.Now()];
    var n := 0;
    while n < |calls|
      invariant n <= |calls| && m.Valid() && fresh(m) && m.isSession == isSession && m.ownsServer == ownsServer
      invariant Behaviour(isSession, ownsServer, calls[..n], views) && views[n] == m.Now()
      invariant views[0] == View(false, port, forward, false, 0, [], {}, [])
      invariant m.dead <==> exists k: nat :: k < n && GivesUp(views[k], calls[k])
    {
      ghost var before := views;
      Turn(m, calls[n]);
      BehaviourSnoc(isSession, ownsServer, calls[..n], views, calls[n], m.Now());
      assert calls[..n] + [calls[n]] == calls[..n + 1];
      views := views + [m.Now()];
      assert forall k: nat :: k <= n ==> views[k] == before[k];
      n := n + 1;
    }
    assert calls[..n] == calls;
    ghost var trace := m.trace;
    forall i, j | 0 <= i < j < |trace| && trace[i].Started? && trace[j].Started?
      && (forall k :: i < k < j ==> !trace[k].Closed?)
      ensures trace[j].at - trace[i].at >= MIN_PROBE_GAP_MS
    {
      ProbesApart(trace, i, j);
    }
    socksPort, inUse, dead := m.socksPort, m.forward, m.dead;
  }
}
