/** Every interleaving of persistent requests with idle sweeps and shutdown.

    `AcquireOrCreate` is two steps, because the registry lock is dropped before the session lock is
    taken. A sweep holds the registry lock throughout but visits one session at a time, so requests
    can lock and release sessions between its iterations. */
module SessionRun {
  import opened Wrappers
  import opened Sessions

  datatype Phase = Wanting | Holding | Released | Refused

  /** `resumed` is the cc session id handed to the subprocess, once it has been spawned. */
  datatype Request = Request(client: string, sid: SessionId, phase: Phase, resumed: Option<string>)

  datatype RegistryLock = Free | Sweeping(now: int) | Stopping

  datatype State = State(st: Store, reqs: seq<Request>, mu: RegistryLock)

  const INIT := State(Store(map[], [], 0, {}), [], Free)

  datatype Step =
    | Acquire(client: string, ws: Workspace, now: int)
    | LockSession(r: nat)
    | Spawn(r: nat)
    | Capture(r: nat, id: string)
    | Release(r: nat, now: int)
    | SweepBegins(now: int)
    | SweepVisits(client: string)
    | SweepEnds
    | StopBegins
    | StopVisits(client: string)
    | StopEnds

  function SetObj(s: State, sid: SessionId, x: Session): State
    requires sid < |s.st.objs|
  {
    s.(st := s.st.(objs := s.st.objs[sid := x]))
  }

  function SetReq(s: State, r: nat, q: Request): State
    requires r < |s.reqs|
  {
    s.(reqs := s.reqs[r := q])
  }

  predicate Holds(s: State, r: nat) {
    r < |s.reqs| && s.reqs[r].phase.Holding? && s.reqs[r].sid < |s.st.objs|
  }

  function Apply(ttl: int, s: State, step: Step): Option<State> {
    match step
    case Acquire(client, ws, now) =>
      if !s.mu.Free? then None else
      var (st', sid) := FindOrCreate(s.st, client, ws, now);
      var q := match sid
        case Some(n) => Request(client, n, Wanting, None)
        case None => Request(client, 0, Refused, None);
      Some(s.(st := st', reqs := s.reqs + [q]))
    case LockSession(r) =>
      if r >= |s.reqs| || !s.reqs[r].phase.Wanting? || s.reqs[r].sid >= |s.st.objs|
         || s.st.objs[s.reqs[r].sid].held.Some? then None
      else
        var sid := s.reqs[r].sid;
        Some(SetReq(SetObj(s, sid, s.st.objs[sid].(held := Some(r))), r, s.reqs[r].(phase := Holding)))
    case Spawn(r) =>
      if !Holds(s, r) || s.reqs[r].resumed.Some? then None else
      Some(SetReq(s, r, s.reqs[r].(resumed := Some(s.st.objs[s.reqs[r].sid].ccid))))
    case Capture(r, id) =>
      if !Holds(s, r) then None else
      Some(SetObj(s, s.reqs[r].sid, SetCc(s.st.objs[s.reqs[r].sid], id)))
    case Release(r, now) =>
      if !Holds(s, r) then None else
      var sid := s.reqs[r].sid;
      Some(SetReq(SetObj(s, sid, s.st.objs[sid].(last := now, held := None)), r, s.reqs[r].(phase := Released)))
    case SweepBegins(now) =>
      if !s.mu.Free? then None else Some(s.(mu := Sweeping(now)))
    case SweepVisits(client) =>
      if !s.mu.Sweeping? || client !in s.st.sessions || s.st.sessions[client] >= |s.st.objs| then None
      else Some(s.(st := Sweep(s.st, client, s.mu.now, ttl)))
    case SweepEnds =>
      if !s.mu.Sweeping? then None else Some(s.(mu := Free))
    case StopBegins =>
      if !s.mu.Free? then None else Some(s.(mu := Stopping))
    case StopVisits(client) =>
      if !s.mu.Stopping? || client !in s.st.sessions || s.st.sessions[client] >= |s.st.objs| then None
      else Some(s.(st := Evict(s.st, client)))
    case StopEnds =>
      if !s.mu.Stopping? || s.st.sessions != map[] then None else Some(s.(mu := Free))
  }

  function Exec(ttl: int, s: State, run: seq<Step>): Option<State>
    decreases |run|
  {
    if run == [] then Some(s)
    else match Apply(ttl, s, run[0])
      case Some(s') => Exec(ttl, s', run[1..])
      case None => None
  }

  // ---- invariant ----

  /** A request and its session agree on the client, and a request holds exactly the sessions whose
      mutex says so. */
  ghost predicate ReqsSound(objs: seq<Session>, reqs: seq<Request>) {
    && (forall r | 0 <= r < |reqs| && !reqs[r].phase.Refused? ::
          && reqs[r].sid < |objs| && objs[reqs[r].sid].client == reqs[r].client
          && (reqs[r].phase.Holding? ==> objs[reqs[r].sid].held == Some(r)))
    && (forall k | 0 <= k < |objs| && objs[k].held.Some? ::
          var r := objs[k].held.value; r < |reqs| && reqs[r].phase.Holding? && reqs[r].sid == k)
  }

  ghost predicate Inv(s: State) { StoreInv(s.st) && ReqsSound(s.st.objs, s.reqs) }

  /** Replacing one session by another with the same client and Cleanup count. */
  lemma ObjKeepsInv(st: Store, sid: SessionId, x: Session)
    requires StoreInv(st) && sid < |st.objs|
    requires x.client == st.objs[sid].client && x.cleanups == st.objs[sid].cleanups
    requires x.ephemeral == st.objs[sid].ephemeral
    ensures StoreInv(st.(objs := st.objs[sid := x]))
    ensures forall k: nat | k < |st.objs| :: Registered(st.(objs := st.objs[sid := x]), k) == Registered(st, k)
  {
  }

  predicate OfRequest(step: Step) { step.LockSession? || step.Spawn? || step.Capture? || step.Release? }

  lemma RequestKeepsInv(ttl: int, s: State, step: Step)
    requires Inv(s) && OfRequest(step) && Apply(ttl, s, step).Some?
    ensures Inv(Apply(ttl, s, step).value)
  {
    var s' := Apply(ttl, s, step).value;
    var sid := s.reqs[step.r].sid;
    ObjKeepsInv(s.st, sid, s'.st.objs[sid]);
    assert s'.st.objs == s.st.objs[sid := s'.st.objs[sid]];
    assert ReqsSound(s'.st.objs, s'.reqs);
  }

  lemma AcquireKeepsInv(ttl: int, s: State, client: string, ws: Workspace, now: int)
    requires Inv(s) && s.mu.Free?
    ensures Inv(Apply(ttl, s, Acquire(client, ws, now)).value)
  {
    if client !in s.st.sessions && !ws.Unresolvable? {
      CreateKeepsInv(s.st, client, ws, now);
    }
  }

  lemma EvictionKeepsReqs(s: State, client: string)
    requires Inv(s) && client in s.st.sessions
    ensures Inv(s.(st := Evict(s.st, client)))
  {
    EvictKeepsInv(s.st, client);
  }

  lemma StepKeepsInv(ttl: int, s: State, step: Step)
    requires Inv(s) && Apply(ttl, s, step).Some?
    ensures Inv(Apply(ttl, s, step).value)
  {
    if OfRequest(step) {
      RequestKeepsInv(ttl, s, step);
    } else if step.Acquire? {
      AcquireKeepsInv(ttl, s, step.client, step.ws, step.now);
    } else if step.SweepVisits? || step.StopVisits? {
      EvictionKeepsReqs(s, step.client);
    }
  }

  lemma {:induction false} RunKeepsInv(ttl: int, s: State, run: seq<Step>)
    requires Inv(s) && Exec(ttl, s, run).Some?
    ensures Inv(Exec(ttl, s, run).value)
    decreases |run|
  {
    if run != [] {
      StepKeepsInv(ttl, s, run[0]);
      RunKeepsInv(ttl, Apply(ttl, s, run[0]).value, run[1..]);
    }
  }

  // ---- accounting ----

  /** In every interleaving the gauge is the size of the session map, Cleanup has run exactly once
      on each session that left it and never on one still in it, and the ephemeral directories on
      disk are exactly those of the registered sessions, each belonging to one of them. */
  lemma SessionsAreAccountedFor(ttl: int, run: seq<Step>)
    requires Exec(ttl, INIT, run).Some?
    ensures var st := Exec(ttl, INIT, run).value.st;
      && st.gauge == |st.sessions|
      && (forall c, d :: c in st.sessions && d in st.sessions && st.sessions[c] == st.sessions[d] ==> c == d)
      && (forall sid: nat | sid < |st.objs| :: st.objs[sid].cleanups == if Registered(st, sid) then 0 else 1)
      && (forall sid: nat :: sid in st.dirs <==> Registered(st, sid) && st.objs[sid].ephemeral)
  {
    RunKeepsInv(ttl, INIT, run);
  }

  /** When a shutdown ends, in any run, no session, no gauge and no directory is left; and it can take
      each session that is left before. */
  lemma ShutdownLeavesNothing(ttl: int, run: seq<Step>)
    requires Exec(ttl, INIT, run).Some? && Exec(ttl, INIT, run).value.mu.Stopping?
    ensures var s := Exec(ttl, INIT, run).value;
      && (Apply(ttl, s, StopEnds).Some? <==> s.st.sessions == map[])
      && (s.st.sessions == map[] ==> s.st.gauge == 0 && s.st.dirs == {})
      && forall client | client in s.st.sessions ::
           && Apply(ttl, s, StopVisits(client)).Some?
           && Apply(ttl, s, StopVisits(client)).value.st.sessions == s.st.sessions - {client}
  {
    RunKeepsInv(ttl, INIT, run);
    var s := Exec(ttl, INIT, run).value;
    assert forall d <- s.st.dirs :: Registered(s.st, d);
  }

  // ---- holders ----

  /** A session object has at most one holder. Two requests of one client may hold at once, but
      only on two objects, and then at most one of these is still registered. */
  lemma HoldersAreExclusive(ttl: int, run: seq<Step>, r: nat, q: nat)
    requires Exec(ttl, INIT, run).Some?
    requires Holds(Exec(ttl, INIT, run).value, r) && Holds(Exec(ttl, INIT, run).value, q) && r != q
    ensures var s := Exec(ttl, INIT, run).value;
      && s.reqs[r].sid != s.reqs[q].sid
      && (s.reqs[r].client == s.reqs[q].client ==>
            !(Registered(s.st, s.reqs[r].sid) && Registered(s.st, s.reqs[q].sid)))
  {
    RunKeepsInv(ttl, INIT, run);
  }

  /** A holder of an ephemeral session has its directory exactly while the session is registered. */
  lemma HolderHasItsDirectoryIff(ttl: int, run: seq<Step>, r: nat)
    requires Exec(ttl, INIT, run).Some? && Holds(Exec(ttl, INIT, run).value, r)
    ensures var s := Exec(ttl, INIT, run).value;
      s.st.objs[s.reqs[r].sid].ephemeral ==> (s.reqs[r].sid in s.st.dirs <==> Registered(s.st, s.reqs[r].sid))
  {
    RunKeepsInv(ttl, INIT, run);
  }

  /** A request acquired for a client while another holds a session of that client is given that
      very session, and so has to wait for it, exactly when it is still registered. */
  lemma RivalWaitsIff(ttl: int, run: seq<Step>, r: nat, ws: Workspace, now: int)
    requires Exec(ttl, INIT, run).Some? && Holds(Exec(ttl, INIT, run).value, r)
    requires Exec(ttl, INIT, run).value.mu.Free?
    ensures var s := Exec(ttl, INIT, run).value;
      var s' := Apply(ttl, s, Acquire(s.reqs[r].client, ws, now)).value;
      var q := |s.reqs|;
      && q < |s'.reqs| && s'.reqs[q].client == s.reqs[r].client
      && (Registered(s.st, s.reqs[r].sid) <==> s'.reqs[q].phase.Wanting? && s'.reqs[q].sid == s.reqs[r].sid)
      && (Registered(s.st, s.reqs[r].sid) ==> Apply(ttl, s', LockSession(q)).None?)
  {
    RunKeepsInv(ttl, INIT, run);
  }

  // ---- when a locked session has been evicted ----

  /** The step takes this session out of the map: the guard of the sweep, or a shutdown. */
  predicate Evicts(ttl: int, s: State, step: Step, sid: SessionId) {
    && sid < |s.st.objs|
    && match step
       case StopVisits(client) => client == s.st.objs[sid].client
       case SweepVisits(client) =>
         && client == s.st.objs[sid].client && s.mu.Sweeping?
         && s.st.objs[sid].held.None? && Idle(s.st.objs[sid], s.mu.now, ttl)
       case _ => false
  }

  lemma StepUnregistersIff(ttl: int, s: State, step: Step, sid: SessionId)
    requires Inv(s) && Registered(s.st, sid) && Apply(ttl, s, step).Some?
    ensures Registered(Apply(ttl, s, step).value.st, sid) <==> !Evicts(ttl, s, step, sid)
    ensures sid < |Apply(ttl, s, step).value.st.objs|
    ensures Apply(ttl, s, step).value.st.objs[sid].client == s.st.objs[sid].client
  {
  }

  lemma StepNeverReregisters(ttl: int, s: State, step: Step, sid: SessionId)
    requires Inv(s) && sid < |s.st.objs| && !Registered(s.st, sid) && Apply(ttl, s, step).Some?
    ensures sid < |Apply(ttl, s, step).value.st.objs| && !Registered(Apply(ttl, s, step).value.st, sid)
  {
  }

  /** At some point of the run its next step evicts the session. */
  predicate EvictedDuring(ttl: int, s: State, run: seq<Step>, sid: SessionId)
    decreases |run|
  {
    run != [] &&
    (Evicts(ttl, s, run[0], sid) || match Apply(ttl, s, run[0])
                                    case Some(s') => EvictedDuring(ttl, s', run[1..], sid)
                                    case None => false)
  }

  lemma {:induction false} NeverReregistered(ttl: int, s: State, run: seq<Step>, sid: SessionId)
    requires Inv(s) && sid < |s.st.objs| && !Registered(s.st, sid) && Exec(ttl, s, run).Some?
    ensures !Registered(Exec(ttl, s, run).value.st, sid)
    decreases |run|
  {
    if run != [] {
      StepKeepsInv(ttl, s, run[0]);
      StepNeverReregisters(ttl, s, run[0], sid);
      NeverReregistered(ttl, Apply(ttl, s, run[0]).value, run[1..], sid);
    }
  }

  /** A registered session is registered at the end of a run exactly when the run did not evict it;
      once out of the map it never comes back. */
  lemma {:induction false} UnregisteredIff(ttl: int, s: State, run: seq<Step>, sid: SessionId)
    requires Inv(s) && Registered(s.st, sid) && Exec(ttl, s, run).Some?
    ensures Registered(Exec(ttl, s, run).value.st, sid) <==> !EvictedDuring(ttl, s, run, sid)
    decreases |run|
  {
    if run != [] {
      var s' := Apply(ttl, s, run[0]).value;
      StepKeepsInv(ttl, s, run[0]);
      StepUnregistersIff(ttl, s, run[0], sid);
      if Registered(s'.st, sid) {
        UnregisteredIff(ttl, s', run[1..], sid);
      } else {
        NeverReregistered(ttl, s', run[1..], sid);
      }
    }
  }

  lemma StepKeepsSid(ttl: int, s: State, step: Step, r: nat)
    requires r < |s.reqs| && Apply(ttl, s, step).Some?
    ensures var s' := Apply(ttl, s, step).value;
      && r < |s'.reqs| && s'.reqs[r].sid == s.reqs[r].sid
      && (s.reqs[r].phase.Refused? ==> s'.reqs[r].phase.Refused?)
  {
  }

  /** A request keeps its session object, and one that was refused never comes to lock. */
  lemma {:induction false} WaitsForTheSame(ttl: int, s: State, run: seq<Step>, r: nat)
    requires r < |s.reqs| && Exec(ttl, s, run).Some?
    ensures var s' := Exec(ttl, s, run).value;
      && r < |s'.reqs| && s'.reqs[r].sid == s.reqs[r].sid
      && (s.reqs[r].phase.Refused? ==> s'.reqs[r].phase.Refused?)
    decreases |run|
  {
    if run != [] {
      StepKeepsSid(ttl, s, run[0], r);
      WaitsForTheSame(ttl, Apply(ttl, s, run[0]).value, run[1..], r);
    }
  }

  /** The gap, exactly. Between the two halves of an `AcquireOrCreate` anything may happen (`gap`).
      The first half picks a registered session; the session locked in the second is registered if
      and only if no shutdown step of that client lies in the gap, and no sweep visits the session
      in the gap while it is unlocked and has been idle for longer than the time to live. */
  lemma LocksRegisteredIff(ttl: int, run: seq<Step>, client: string, ws: Workspace, now: int, gap: seq<Step>)
    requires Exec(ttl, INIT, run).Some?
    requires Apply(ttl, Exec(ttl, INIT, run).value, Acquire(client, ws, now)).Some?
    requires var s := Exec(ttl, INIT, run).value;
      var s1 := Apply(ttl, s, Acquire(client, ws, now)).value;
      Exec(ttl, s1, gap).Some? && Apply(ttl, Exec(ttl, s1, gap).value, LockSession(|s.reqs|)).Some?
    ensures var s := Exec(ttl, INIT, run).value;
      var s1 := Apply(ttl, s, Acquire(client, ws, now)).value;
      var s2 := Apply(ttl, Exec(ttl, s1, gap).value, LockSession(|s.reqs|)).value;
      var r := |s.reqs|;
      && Holds(s2, r) && s2.reqs[r].sid == s1.reqs[r].sid && Registered(s1.st, s1.reqs[r].sid)
      && (Registered(s2.st, s2.reqs[r].sid) <==> !EvictedDuring(ttl, s1, gap, s1.reqs[r].sid))
  {
    RunKeepsInv(ttl, INIT, run);
    var s := Exec(ttl, INIT, run).value;
    var s1 := Apply(ttl, s, Acquire(client, ws, now)).value;
    var r := |s.reqs|;
    StepKeepsInv(ttl, s, Acquire(client, ws, now));
    RunKeepsInv(ttl, s1, gap);
    WaitsForTheSame(ttl, s1, gap, r);
    AcquiredIsRegistered(ttl, s, client, ws, now, gap);
    UnregisteredIff(ttl, s1, gap, s1.reqs[r].sid);
    StepUnregisters(ttl, Exec(ttl, s1, gap).value, r, s1.reqs[r].sid);
  }

  lemma StepUnregisters(ttl: int, s: State, r: nat, sid: SessionId)
    requires Inv(s) && Apply(ttl, s, LockSession(r)).Some? && sid < |s.st.objs|
    ensures Registered(Apply(ttl, s, LockSession(r)).value.st, sid) <==> Registered(s.st, sid)
  {
    if Registered(s.st, sid) { StepUnregistersIff(ttl, s, LockSession(r), sid); }
    else { StepNeverReregisters(ttl, s, LockSession(r), sid); }
  }

  lemma AcquiredIsRegistered(ttl: int, s: State, client: string, ws: Workspace, now: int, gap: seq<Step>)
    requires Inv(s) && Apply(ttl, s, Acquire(client, ws, now)).Some?
    requires var s1 := Apply(ttl, s, Acquire(client, ws, now)).value;
      Exec(ttl, s1, gap).Some? && Apply(ttl, Exec(ttl, s1, gap).value, LockSession(|s.reqs|)).Some?
    ensures var s1 := Apply(ttl, s, Acquire(client, ws, now)).value;
      Registered(s1.st, s1.reqs[|s.reqs|].sid)
  {
    var s1 := Apply(ttl, s, Acquire(client, ws, now)).value;
    WaitsForTheSame(ttl, s1, gap, |s.reqs|);
  }

  const EVICTION: seq<Step> := [Acquire("c", Ephemeral, 0), SweepBegins(10), SweepVisits("c"), SweepEnds]
  const RIVAL: seq<Step> := [Acquire("c", Ephemeral, 10), LockSession(0), LockSession(1)]
  const CLEANED := Session("c", "", true, 0, None, 1)
  const SWEPT := State(Store(map[], [CLEANED], 0, {}), [Request("c", 0, Wanting, None)], Free)

  lemma {:induction false} ExecConcat(ttl: int, s: State, a: seq<Step>, b: seq<Step>)
    requires Exec(ttl, s, a).Some?
    ensures Exec(ttl, s, a + b) == Exec(ttl, Exec(ttl, s, a).value, b)
    decreases |a|
  {
    if a == [] {
      assert a + b == b;
    } else {
      assert (a + b)[1..] == a[1..] + b;
      ExecConcat(ttl, Apply(ttl, s, a[0]).value, a[1..], b);
    }
  }

  lemma SweptInTheGap()
    ensures Exec(5, INIT, EVICTION) == Some(SWEPT)
  {
    var x := CLEANED.(cleanups := 0);
    var s1 := State(Store(map["c" := 0], [x], 1, {0}), SWEPT.reqs, Free);
    var s2 := s1.(mu := Sweeping(10));
    var s3 := SWEPT.(mu := Sweeping(10));
    assert Apply(5, INIT, EVICTION[0]) == Some(s1) by {
      assert Create(INIT.st, "c", Ephemeral, 0) == s1.st;
      assert INIT.reqs + SWEPT.reqs == SWEPT.reqs;
    }
    assert Apply(5, s2, EVICTION[2]) == Some(s3) by {
      assert {0} - {0} == {} && map["c" := 0] - {"c"} == map[] && [x][0 := CLEANED] == [CLEANED];
    }
    assert Exec(5, s3, EVICTION[3..]) == Some(SWEPT);
    assert Exec(5, s2, EVICTION[2..]) == Some(SWEPT);
    assert Exec(5, s1, EVICTION[1..]) == Some(SWEPT);
  }

  /** The gap is real: with a time to live of 5, this run leaves two requests of client "c" holding
      at the same time, the first in a directory that has been removed. */
  lemma EvictedInTheGap()
    ensures Exec(5, INIT, EVICTION + RIVAL).Some?
    ensures var s := Exec(5, INIT, EVICTION + RIVAL).value;
      && Holds(s, 0) && Holds(s, 1) && s.reqs[0].client == s.reqs[1].client
      && s.st.objs[s.reqs[0].sid].ephemeral && s.reqs[0].sid !in s.st.dirs
  {
    SweptInTheGap();
    ExecConcat(5, INIT, EVICTION, RIVAL);
    var s1 := Apply(5, SWEPT, RIVAL[0]).value;
    var s2 := Apply(5, s1, RIVAL[1]).value;
    var s3 := Apply(5, s2, RIVAL[2]).value;
    assert Exec(5, s2, RIVAL[2..]) == Some(s3);
    assert Exec(5, s1, RIVAL[1..]) == Some(s3);
  }

  /** Neither this request's release nor a shutdown occurs in the run. */
  ghost predicate KeepsHolding(run: seq<Step>, r: nat) {
    forall step <- run :: !step.StopVisits? && !(step.Release? && step.r == r)
  }

  /** A session that was registered when a request locked it stays registered, and the request keeps
      it, through any number of sweeps: only its release or a shutdown can end that. */
  lemma {:induction false} HeldSessionIsNotSwept(ttl: int, s: State, run: seq<Step>, r: nat)
    requires Inv(s) && Holds(s, r) && Registered(s.st, s.reqs[r].sid)
    requires KeepsHolding(run, r) && Exec(ttl, s, run).Some?
    ensures var s' := Exec(ttl, s, run).value;
      Holds(s', r) && s'.reqs[r].sid == s.reqs[r].sid && Registered(s'.st, s.reqs[r].sid)
    decreases |run|
  {
    if run != [] {
      StepKeepsInv(ttl, s, run[0]);
      StepKeepsHeld(ttl, s, run[0], r);
      HeldSessionIsNotSwept(ttl, Apply(ttl, s, run[0]).value, run[1..], r);
    }
  }

  lemma StepKeepsHeld(ttl: int, s: State, step: Step, r: nat)
    requires Inv(s) && Holds(s, r) && Registered(s.st, s.reqs[r].sid)
    requires !step.StopVisits? && !(step.Release? && step.r == r) && Apply(ttl, s, step).Some?
    ensures var s' := Apply(ttl, s, step).value;
      Holds(s', r) && s'.reqs[r].sid == s.reqs[r].sid && Registered(s'.st, s.reqs[r].sid)
  {
  }

  /** A request that releases its session leaves it unlocked and fresh: no sweep at a time up to the
      time to live after the release takes it. */
  lemma ReleasedIsSpared(ttl: int, s: State, r: nat, now: int, later: int)
    requires Inv(s) && Holds(s, r) && later <= now + ttl
    ensures Apply(ttl, s, Release(r, now)).Some?
    ensures var s' := Apply(ttl, s, Release(r, now)).value;
      var x := s'.st.objs[s.reqs[r].sid];
      && x.held == None && s'.reqs[r].phase == Released
      && (Registered(s.st, s.reqs[r].sid) ==> Sweep(s'.st, x.client, later, ttl) == s'.st)
  {
    StepKeepsInv(ttl, s, Release(r, now));
  }

  lemma StepKeepsKind(ttl: int, s: State, step: Step, sid: SessionId)
    requires Apply(ttl, s, step).Some? && sid < |s.st.objs|
    ensures var objs := Apply(ttl, s, step).value.st.objs;
      sid < |objs| && objs[sid].ephemeral == s.st.objs[sid].ephemeral && objs[sid].client == s.st.objs[sid].client
  {
  }

  lemma {:induction false} KindIsKept(ttl: int, s: State, run: seq<Step>, sid: SessionId)
    requires Exec(ttl, s, run).Some? && sid < |s.st.objs|
    ensures var objs := Exec(ttl, s, run).value.st.objs;
      sid < |objs| && objs[sid].ephemeral == s.st.objs[sid].ephemeral && objs[sid].client == s.st.objs[sid].client
    decreases |run|
  {
    if run != [] {
      StepKeepsKind(ttl, s, run[0], sid);
      KindIsKept(ttl, Apply(ttl, s, run[0]).value, run[1..], sid);
    }
  }

  /** Over every run a session is in a directory of its own exactly if the `AcquireOrCreate` that
      created it asked for no configured workspace: it has such a directory just then, as long as
      it is registered. */
  lemma KindIsAsAsked(ttl: int, run: seq<Step>, client: string, ws: Workspace, now: int, rest: seq<Step>)
    requires Exec(ttl, INIT, run).Some? && client !in Exec(ttl, INIT, run).value.st.sessions
    requires ws != Unresolvable && Apply(ttl, Exec(ttl, INIT, run).value, Acquire(client, ws, now)).Some?
    requires Exec(ttl, Apply(ttl, Exec(ttl, INIT, run).value, Acquire(client, ws, now)).value, rest).Some?
    ensures var s := Exec(ttl, INIT, run).value;
      var s' := Exec(ttl, Apply(ttl, s, Acquire(client, ws, now)).value, rest).value;
      var sid := |s.st.objs|;
      && sid < |s'.st.objs| && s'.st.objs[sid].client == client
      && (s'.st.objs[sid].ephemeral <==> ws == Ephemeral)
      && (sid in s'.st.dirs <==> ws == Ephemeral && Registered(s'.st, sid))
  {
    RunKeepsInv(ttl, INIT, run);
    var s := Exec(ttl, INIT, run).value;
    var s1 := Apply(ttl, s, Acquire(client, ws, now)).value;
    AcquireGives(s.st, client, ws, now);
    StepKeepsInv(ttl, s, Acquire(client, ws, now));
    RunKeepsInv(ttl, s1, rest);
    KindIsKept(ttl, s1, rest, |s.st.objs|);
  }

  // ---- the cc session id ----

  predicate HasCc(s: State, sid: SessionId, id: string) {
    sid < |s.st.objs| && s.st.objs[sid].ccid == id && id != ""
  }

  lemma StepKeepsCc(ttl: int, s: State, step: Step, sid: SessionId, id: string)
    requires HasCc(s, sid, id) && Apply(ttl, s, step).Some?
    ensures HasCc(Apply(ttl, s, step).value, sid, id)
  {
  }

  /** Once a session object has a cc session id it never changes. */
  lemma {:induction false} CcSessionIdSticks(ttl: int, s: State, run: seq<Step>, sid: SessionId, id: string)
    requires HasCc(s, sid, id) && Exec(ttl, s, run).Some?
    ensures HasCc(Exec(ttl, s, run).value, sid, id)
    decreases |run|
  {
    if run != [] {
      StepKeepsCc(ttl, s, run[0], sid, id);
      CcSessionIdSticks(ttl, Apply(ttl, s, run[0]).value, run[1..], sid, id);
    }
  }

  /** A holder can learn its session's cc id, and can spawn its subprocess with the id known so far. */
  lemma HolderSpawnsAndCaptures(ttl: int, s: State, r: nat, id: string)
    requires Holds(s, r)
    ensures Apply(ttl, s, Capture(r, id)).Some?
    ensures s.st.objs[s.reqs[r].sid].ccid == "" && id != "" ==>
      HasCc(Apply(ttl, s, Capture(r, id)).value, s.reqs[r].sid, id)
    ensures s.reqs[r].resumed == None ==>
      && Apply(ttl, s, Spawn(r)).Some?
      && Apply(ttl, s, Spawn(r)).value.reqs[r].resumed == Some(s.st.objs[s.reqs[r].sid].ccid)
  {
  }

  predicate Spawned(s: State, r: nat) { r < |s.reqs| && s.reqs[r].resumed.Some? }

  lemma StepSpawns(ttl: int, s: State, step: Step, r: nat)
    requires Apply(ttl, s, step).Some? && !Spawned(s, r) && Spawned(Apply(ttl, s, step).value, r)
    ensures step == Spawn(r) && Holds(s, r)
    ensures Apply(ttl, s, step).value.reqs[r] == s.reqs[r].(resumed := Some(s.st.objs[s.reqs[r].sid].ccid))
  {
  }

  /** From then on every request that spawns on that object resumes that id. */
  lemma {:induction false} LaterRequestsResumeTheSameId(
      ttl: int, s: State, run: seq<Step>, sid: SessionId, id: string, r: nat)
    requires HasCc(s, sid, id) && Exec(ttl, s, run).Some?
    requires !Spawned(s, r) && Spawned(Exec(ttl, s, run).value, r) && Exec(ttl, s, run).value.reqs[r].sid == sid
    ensures Exec(ttl, s, run).value.reqs[r].resumed == Some(id)
    decreases |run|
  {
    var s' := Apply(ttl, s, run[0]).value;
    if Spawned(s', r) {
      StepSpawns(ttl, s, run[0], r);
      ResumedSticks(ttl, s', run[1..], r);
    } else {
      StepKeepsCc(ttl, s, run[0], sid, id);
      LaterRequestsResumeTheSameId(ttl, s', run[1..], sid, id, r);
    }
  }

  lemma {:induction false} ResumedSticks(ttl: int, s: State, run: seq<Step>, r: nat)
    requires Spawned(s, r) && Exec(ttl, s, run).Some?
    ensures var s' := Exec(ttl, s, run).value;
      r < |s'.reqs| && s'.reqs[r].resumed == s.reqs[r].resumed && s'.reqs[r].sid == s.reqs[r].sid
    decreases |run|
  {
    if run != [] {
      ResumedSticks(ttl, Apply(ttl, s, run[0]).value, run[1..], r);
    }
  }
}
