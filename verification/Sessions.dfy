/** The session manager: a registry of persistent sessions, a mutex per session, idle eviction by
    `TryLock`, and shutdown.

    A session object is named by its creation number, and so is the fresh directory an ephemeral
    one is given; `dirs` is the set of such directories present on disk. */
module Sessions {
  import opened Wrappers

  type SessionId = nat

  /** `held` says which request locked the mutex; the code only ever tests whether one did.
      `cleanups` counts the calls of the session's Cleanup. */
  datatype Session = Session(client: string, ccid: string, ephemeral: bool, last: int, held: Option<nat>, cleanups: nat)

  datatype Store = Store(sessions: map<string, SessionId>, objs: seq<Session>, gauge: int, dirs: set<SessionId>)

  /** What `ResolveByName` does with the requested workspace name. */
  datatype Workspace = Configured | Ephemeral | Unresolvable

  function Create(st: Store, client: string, ws: Workspace, now: int): Store
    requires !ws.Unresolvable?
  {
    var sid := |st.objs|;
    Store(st.sessions[client := sid],
          st.objs + [Session(client, "", ws.Ephemeral?, now, None, 0)],
          st.gauge + 1,
          if ws.Ephemeral? then st.dirs + {sid} else st.dirs)
  }

  /** The registry half of `AcquireOrCreate`; `None` is the error return. */
  function FindOrCreate(st: Store, client: string, ws: Workspace, now: int): (Store, Option<SessionId>) {
    if client in st.sessions then (st, Some(st.sessions[client]))
    else if ws.Unresolvable? then (st, None)
    else (Create(st, client, ws, now), Some(|st.objs|))
  }

  /** What an `AcquireOrCreate` gives: the client's session whatever workspace is named, or else a new
      one, in a directory of its own only if none is configured, or the error of the resolver. */
  lemma AcquireGives(st: Store, client: string, ws: Workspace, now: int)
    requires MapOwned(st)
    ensures var (st', sid) := FindOrCreate(st, client, ws, now);
      if client in st.sessions then st' == st && sid == Some(st.sessions[client])
      else if ws == Unresolvable then st' == st && sid == None
      else
        && sid == Some(|st.objs|) && Registered(st', |st.objs|)
        && st'.objs == st.objs + [Session(client, "", ws == Ephemeral, now, None, 0)]
        && st'.dirs == (if ws == Ephemeral then st.dirs + {|st.objs|} else st.dirs)
        && forall k: nat | k < |st.objs| :: Registered(st', k) == Registered(st, k)
  {
  }

  function SetCc(x: Session, id: string): Session {
    if id == "" || x.ccid != "" then x else x.(ccid := id)
  }

  /** Cleanup, removal from the map and the gauge, for one session. */
  function Evict(st: Store, client: string): Store
    requires client in st.sessions && st.sessions[client] < |st.objs|
  {
    var sid := st.sessions[client];
    Store(st.sessions - {client},
          st.objs[sid := st.objs[sid].(cleanups := st.objs[sid].cleanups + 1)],
          st.gauge - 1,
          st.dirs - {sid})
  }

  predicate Idle(x: Session, now: int, ttl: int) { now - x.last > ttl }

  /** One iteration of `evictIdle`: `TryLock`, the age test, eviction, `Unlock`. */
  function Sweep(st: Store, client: string, now: int, ttl: int): Store
    requires client in st.sessions && st.sessions[client] < |st.objs|
  {
    var x := st.objs[st.sessions[client]];
    if x.held.Some? || !Idle(x, now, ttl) then st else Evict(st, client)
  }

  /** A sweep takes a session exactly when nobody holds it and it was last used longer ago than the
      time to live: one used just that long ago stays. */
  lemma SweepTakesIff(st: Store, client: string, now: int, ttl: int)
    requires StoreInv(st) && client in st.sessions
    ensures var x := st.objs[st.sessions[client]];
      client !in Sweep(st, client, now, ttl).sessions <==> x.held.None? && x.last < now - ttl
  {
  }

  /** The first non-empty id is kept. */
  lemma FirstCcIdIsKept(x: Session, id: string, later: string)
    requires x.ccid == "" && id != ""
    ensures SetCc(x, "") == x && SetCc(x, id) == x.(ccid := id) && SetCc(SetCc(x, id), later) == SetCc(x, id)
  {
  }

  predicate Registered(st: Store, sid: SessionId) {
    sid < |st.objs| && st.objs[sid].client in st.sessions && st.sessions[st.objs[sid].client] == sid
  }

  ghost predicate MapOwned(st: Store) {
    forall c <- st.sessions :: st.sessions[c] < |st.objs| && st.objs[st.sessions[c]].client == c
  }

  /** Cleanup has run exactly once on the sessions that left the map, and never on the others; the
      directories on disk are those of the registered ephemeral sessions. */
  ghost predicate CleanedOnce(st: Store) {
    && (forall sid: nat | sid < |st.objs| ::
          && st.objs[sid].cleanups == (if Registered(st, sid) then 0 else 1)
          && (sid in st.dirs <==> Registered(st, sid) && st.objs[sid].ephemeral))
    && (forall d <- st.dirs :: d < |st.objs|)
  }

  ghost predicate StoreInv(st: Store) {
    MapOwned(st) && CleanedOnce(st) && st.gauge == |st.sessions|
  }

  lemma CreateKeepsInv(st: Store, client: string, ws: Workspace, now: int)
    requires StoreInv(st) && client !in st.sessions && !ws.Unresolvable?
    ensures StoreInv(Create(st, client, ws, now))
  {
    var st' := Create(st, client, ws, now);
    forall sid: nat | sid < |st.objs|
      ensures Registered(st', sid) == Registered(st, sid) && st'.objs[sid] == st.objs[sid]
    {
    }
  }

  lemma EvictKeepsInv(st: Store, client: string)
    requires StoreInv(st) && client in st.sessions
    ensures StoreInv(Evict(st, client))
  {
    var st' := Evict(st, client);
    var sid := st.sessions[client];
    assert |st'.sessions| == |st.sessions| - 1 by {
      assert st'.sessions.Keys == st.sessions.Keys - {client};
    }
    forall k: nat | k < |st.objs| && k != sid
      ensures Registered(st', k) == Registered(st, k) && st'.objs[k] == st.objs[k]
    {
    }
  }

  predicate Evictable(st: Store, c: string, now: int, ttl: int) {
    && c in st.sessions && st.sessions[c] < |st.objs|
    && st.objs[st.sessions[c]].held.None? && Idle(st.objs[st.sessions[c]], now, ttl)
  }

  /** From `st0` to `st`: the unlocked idle sessions outside `left` are gone, all others unchanged. */
  ghost predicate SweptBut(left: set<string>, st0: Store, st: Store, now: int, ttl: int) {
    && |st.objs| == |st0.objs|
    && (forall c :: c in st.sessions <==> c in st0.sessions && (c in left || !Evictable(st0, c, now, ttl)))
    && (forall c <- st.sessions ::
          && st.sessions[c] == st0.sessions[c] && st.sessions[c] < |st.objs|
          && st.objs[st.sessions[c]] == st0.objs[st.sessions[c]])
  }

  lemma SweepOneMore(left: set<string>, st0: Store, st: Store, c: string, now: int, ttl: int)
    requires MapOwned(st) && SweptBut(left, st0, st, now, ttl) && c in left && c in st.sessions
    ensures SweptBut(left - {c}, st0, Sweep(st, c, now, ttl), now, ttl)
  {
    assert Evictable(st0, c, now, ttl) == Evictable(st, c, now, ttl);
    forall d | d in st.sessions && d != c
      ensures st.sessions[d] != st.sessions[c]
    {
      assert st.objs[st.sessions[d]].client == d;
    }
  }

  // ---- the manager ----

  class Manager {
    const ttl: int
    var sessions: map<string, SessionId>
    var objs: seq<Session>
    var gauge: int
    var dirs: set<SessionId>

    constructor (ttl: int)
      ensures View() == Store(map[], [], 0, {}) && this.ttl == ttl
    {
      this.ttl := ttl;
      sessions, objs, gauge, dirs := map[], [], 0, {};
    }

    function View(): Store
      reads this
    {
      Store(sessions, objs, gauge, dirs)
    }

    method Acquire(client: string, ws: Workspace, now: int) returns (sid: Option<SessionId>)
      requires StoreInv(View())
      modifies this
      ensures (View(), sid) == FindOrCreate(old(View()), client, ws, now)
      ensures StoreInv(View())
    {
      if client in sessions {
        return Some(sessions[client]);
      }
      if ws.Unresolvable? {
        return None;
      }
      CreateKeepsInv(View(), client, ws, now);
      var n := |objs|;
      if ws.Ephemeral? {
        dirs := dirs + {n};
      }
      objs := objs + [Session(client, "", ws.Ephemeral?, now, None, 0)];
      sessions := sessions[client := n];
      gauge := gauge + 1;
      sid := Some(n);
    }

    method SetCCSessionID(sid: SessionId, id: string)
      requires sid < |objs|
      modifies this
      ensures View() == old(View()).(objs := old(objs)[sid := SetCc(old(objs)[sid], id)])
    {
      if id == "" || objs[sid].ccid != "" {
        assert objs == objs[sid := objs[sid]];
        return;
      }
      objs := objs[sid := objs[sid].(ccid := id)];
    }

    method EvictOne(client: string)
      requires StoreInv(View()) && client in sessions
      modifies this
      ensures View() == Evict(old(View()), client)
      ensures StoreInv(View())
    {
      EvictKeepsInv(View(), client);
      var sid := sessions[client];
      objs := objs[sid := objs[sid].(cleanups := objs[sid].cleanups + 1)];
      dirs := dirs - {sid};
      sessions := sessions - {client};
      gauge := gauge - 1;
    }

    /** The sweep as it runs when no request locks or releases meanwhile: exactly the sessions that
        are unlocked and idle leave, and the rest are untouched. */
    method EvictIdle(now: int)
      requires StoreInv(View())
      modifies this
      ensures StoreInv(View())
      ensures SweptBut({}, old(View()), View(), now, ttl)
    {
      var left := sessions.Keys;
      while left != {}
        invariant StoreInv(View())
        invariant left <= sessions.Keys
        invariant SweptBut(left, old(View()), View(), now, ttl)
        decreases left
      {
        var c :| c in left;
        SweepOneMore(left, old(View()), View(), c, now, ttl);
        left := left - {c};
        var x := objs[sessions[c]];
        if x.held.None? && now - x.last > ttl {
          EvictOne(c);
        }
      }
    }

    method EvictAll()
      requires StoreInv(View())
      modifies this
      ensures StoreInv(View())
      ensures sessions == map[] && gauge == 0 && dirs == {}
    {
      while sessions != map[]
        invariant StoreInv(View())
        decreases |sessions|
      {
        var c :| c in sessions;
        EvictOne(c);
      }
    }
  }
}
