/** One live bridge per principal: the registry, and every interleaving of `/bridge` handlers.

    A connection is named by the number of the handler that made it, and `closed` is the set of
    connections whose `Closed()` answers true. */
module BridgeRegistry {
  import opened Wrappers

  type Principal = string
  type ConnId = nat

  datatype RegisterResult = Registered | AlreadyConnected | EmptyPrincipal

  function Register(m: map<Principal, ConnId>, closed: set<ConnId>, p: Principal, c: ConnId)
    : (map<Principal, ConnId>, RegisterResult)
  {
    if p == "" then (m, EmptyPrincipal)
    else if p in m && m[p] !in closed then (m, AlreadyConnected)
    else (m[p := c], RegisterResult.Registered)
  }

  function Unregister(m: map<Principal, ConnId>, p: Principal, c: ConnId): map<Principal, ConnId> {
    if p in m && m[p] == c && p != "" then m - {p} else m
  }

  function Lookup(m: map<Principal, ConnId>, closed: set<ConnId>, p: Principal): Option<ConnId> {
    if p == "" || p !in m || m[p] in closed then None else Some(m[p])
  }

  /** A connection can be registered exactly for a principal that has no live one, an entry left by a
      closed connection being no obstacle; from then on it is the one found, and the other
      principals are not affected. */
  lemma RegistersIff(m: map<Principal, ConnId>, closed: set<ConnId>, p: Principal, c: ConnId)
    requires c !in closed
    ensures var (m', r) := Register(m, closed, p, c);
      && (r == RegisterResult.Registered <==> p != "" && (p !in m || m[p] in closed))
      && (r == EmptyPrincipal <==> p == "")
      && Lookup(m', closed, p) == (if p == "" then None else if p in m && m[p] !in closed then Some(m[p]) else Some(c))
      && forall q :: q != p ==> Lookup(m', closed, q) == Lookup(m, closed, q)
  {
  }

  /** Unregistering removes that connection's entry and no other, whoever has replaced it. */
  lemma UnregistersOnly(m: map<Principal, ConnId>, closed: set<ConnId>, p: Principal, c: ConnId)
    ensures var m' := Unregister(m, p, c);
      && Lookup(m', closed, p) == (if p in m && m[p] == c then None else Lookup(m, closed, p))
      && (p != "" && p in m && m[p] == c ==> p !in m')
      && forall q :: q != p ==> Lookup(m', closed, q) == Lookup(m, closed, q)
  {
  }

  class Registry {
    var m: map<Principal, ConnId>

    constructor ()
      ensures m == map[]
    {
      m := map[];
    }

    method Add(p: Principal, c: ConnId, closed: set<ConnId>) returns (r: RegisterResult)
      modifies this
      ensures (m, r) == Register(old(m), closed, p, c)
    {
      if p == "" { return EmptyPrincipal; }
      if p in m && m[p] !in closed { return AlreadyConnected; }
      m := m[p := c];
      r := RegisterResult.Registered;
    }

    method Remove(p: Principal, c: ConnId)
      modifies this
      ensures m == Unregister(old(m), p, c)
    {
      if p == "" { return; }
      if p in m && m[p] == c {
        m := m - {p};
      }
    }

    method Find(p: Principal, closed: set<ConnId>) returns (c: Option<ConnId>)
      ensures c == Lookup(m, closed, p)
    {
      if p == "" { return None; }
      if p !in m || m[p] in closed { return None; }
      c := Some(m[p]);
    }

    /** The principals with a live bridge, each exactly once, in map order. */
    method Snapshot(closed: set<ConnId>) returns (out: seq<Principal>)
      ensures forall p :: p in out <==> p in m && m[p] !in closed
      ensures forall i, j :: 0 <= i < j < |out| ==> out[i] != out[j]
    {
      out := [];
      var left := m.Keys;
      while left != {}
        invariant left <= m.Keys
        invariant forall p :: p in out <==> p in m && p !in left && m[p] !in closed
        invariant forall i, j :: 0 <= i < j < |out| ==> out[i] != out[j]
        decreases left
      {
        var p :| p in left;
        left := left - {p};
        if m[p] !in closed {
          out := out + [p];
        }
      }
    }
  }

  // ---- the life of a handler ----

  /** `handleBridge`, up to its deferred calls. `Connected` is between the two: the gauge is up but
      `Register` has not been called; `Waiting` blocks on `Done`; `Unregistered` has run the last
      deferred call first, the gauge comes next. */
  datatype Phase = Hello | Connected | Waiting | Rejected | Unregistered | Gone

  datatype Handler = Handler(principal: Principal, helloOk: bool, phase: Phase)

  datatype State = State(m: map<Principal, ConnId>, handlers: seq<Handler>, closed: set<ConnId>, gauge: int)

  const INIT := State(map[], [], {}, 0)

  datatype Step =
    | Upgrade(p: Principal)      // token checked, websocket accepted
    | HelloSucceeds(h: ConnId)   // root stored, gauge up
    | HelloFails(h: ConnId)      // connection closed
    | CallRegister(h: ConnId)
    | ConnectionCloses(h: ConnId)
    | DoneThenUnregister(h: ConnId)
    | Leave(h: ConnId)           // gauge down, context cancelled

  function To(s: State, h: ConnId, phase: Phase): State
    requires h < |s.handlers|
  {
    s.(handlers := s.handlers[h := s.handlers[h].(phase := phase)])
  }

  predicate IsAt(s: State, h: ConnId, phase: Phase) { h < |s.handlers| && s.handlers[h].phase == phase }

  function Apply(s: State, st: Step): Option<State> {
    match st
    case Upgrade(p) =>
      if p == "" then None else Some(s.(handlers := s.handlers + [Handler(p, false, Hello)]))
    case HelloSucceeds(h) =>
      if !IsAt(s, h, Hello) then None else
      Some(s.(handlers := s.handlers[h := s.handlers[h].(helloOk := true, phase := Connected)], gauge := s.gauge + 1))
    case HelloFails(h) =>
      if !IsAt(s, h, Hello) then None else Some(To(s, h, Gone).(closed := s.closed + {h}))
    case CallRegister(h) =>
      if !IsAt(s, h, Connected) then None else
      var (m', r) := Register(s.m, s.closed, s.handlers[h].principal, h);
      if r.Registered? then Some(To(s, h, Waiting).(m := m'))
      else Some(To(s, h, Rejected).(m := m', closed := s.closed + {h}))
    case ConnectionCloses(h) =>
      if h >= |s.handlers| then None else Some(s.(closed := s.closed + {h}))
    case DoneThenUnregister(h) =>
      if !IsAt(s, h, Waiting) || h !in s.closed then None else
      Some(To(s, h, Unregistered).(m := Unregister(s.m, s.handlers[h].principal, h)))
    case Leave(h) =>
      if !IsAt(s, h, Unregistered) && !IsAt(s, h, Rejected) then None else
      Some(To(s, h, Gone).(gauge := s.gauge - 1, closed := s.closed + {h}))
  }

  function Exec(s: State, run: seq<Step>): Option<State>
    decreases |run|
  {
    if run == [] then Some(s)
    else match Apply(s, run[0])
      case Some(s') => Exec(s', run[1..])
      case None => None
  }

  predicate Counted(h: Handler) { h.phase.Connected? || h.phase.Waiting? || h.phase.Rejected? || h.phase.Unregistered? }

  function CountCounted(hs: seq<Handler>): nat {
    if hs == [] then 0 else CountCounted(hs[..|hs| - 1]) + (if Counted(hs[|hs| - 1]) then 1 else 0)
  }

  /** Registered and live: what the single-bridge policy is about. */
  predicate LiveBridge(s: State, h: ConnId) {
    h < |s.handlers| && s.handlers[h].phase.Waiting? && h !in s.closed
  }

  /** An entry belongs to a handler that completed its hello and still waits for its connection. */
  ghost predicate EntriesOwned(s: State) {
    forall p <- s.m ::
      && s.m[p] < |s.handlers| && s.handlers[s.m[p]].principal == p && p != ""
      && s.handlers[s.m[p]].phase.Waiting? && s.handlers[s.m[p]].helloOk
  }

  ghost predicate LiveListed(s: State) {
    forall h: nat :: LiveBridge(s, h) ==>
      s.handlers[h].principal in s.m && s.m[s.handlers[h].principal] == h
  }

  ghost predicate HandlersSound(hs: seq<Handler>) {
    forall h | 0 <= h < |hs| ::
      hs[h].principal != "" && (hs[h].phase.Hello? || hs[h].phase.Gone? || hs[h].helloOk)
  }

  ghost predicate Inv(s: State) {
    EntriesOwned(s) && LiveListed(s) && HandlersSound(s.handlers) && s.gauge == CountCounted(s.handlers)
  }

  lemma {:induction false} CountUpdate(hs: seq<Handler>, h: nat, x: Handler)
    requires h < |hs|
    ensures CountCounted(hs[h := x])
         == CountCounted(hs) - (if Counted(hs[h]) then 1 else 0) + (if Counted(x) then 1 else 0)
  {
    var n := |hs| - 1;
    if h == n {
      assert hs[h := x][..n] == hs[..n];
    } else {
      assert hs[h := x][..n] == hs[..n][h := x];
      CountUpdate(hs[..n], h, x);
    }
  }

  lemma StepKeepsGauge(s: State, st: Step)
    requires s.gauge == CountCounted(s.handlers) && Apply(s, st).Some?
    ensures Apply(s, st).value.gauge == CountCounted(Apply(s, st).value.handlers)
  {
    var s' := Apply(s, st).value;
    if st.Upgrade? {
      assert s'.handlers[..|s.handlers|] == s.handlers;
    } else {
      CountUpdate(s.handlers, st.h, s'.handlers[st.h]);
      assert s'.handlers == s.handlers[st.h := s'.handlers[st.h]];
    }
  }

  lemma StepKeepsHandlers(s: State, st: Step)
    requires HandlersSound(s.handlers) && Apply(s, st).Some?
    ensures HandlersSound(Apply(s, st).value.handlers)
  {
  }

  lemma StepKeepsEntries(s: State, st: Step)
    requires EntriesOwned(s) && HandlersSound(s.handlers) && Apply(s, st).Some?
    ensures EntriesOwned(Apply(s, st).value)
  {
    var s' := Apply(s, st).value;
    if !st.Upgrade? {
      assert forall h: nat | h < |s.handlers| && h != st.h :: s'.handlers[h] == s.handlers[h];
    }
  }

  lemma StepKeepsListed(s: State, st: Step)
    requires EntriesOwned(s) && LiveListed(s) && HandlersSound(s.handlers) && Apply(s, st).Some?
    ensures LiveListed(Apply(s, st).value)
  {
    var s' := Apply(s, st).value;
    assert forall h: nat :: LiveBridge(s', h) && !(st.CallRegister? && h == st.h) ==> LiveBridge(s, h);
  }

  lemma StepKeepsInv(s: State, st: Step)
    requires Inv(s) && Apply(s, st).Some?
    ensures Inv(Apply(s, st).value)
  {
    StepKeepsGauge(s, st);
    StepKeepsHandlers(s, st);
    StepKeepsEntries(s, st);
    StepKeepsListed(s, st);
  }

  /** Over one step a live registration stays exactly where it is: only its own closing can end it,
      never another handler's `Register` or a stale `Unregister`. */
  lemma StepKeepsLive(s: State, st: Step, p: Principal)
    requires Inv(s) && Apply(s, st).Some? && p in s.m && s.m[p] !in Apply(s, st).value.closed
    ensures p in Apply(s, st).value.m && Apply(s, st).value.m[p] == s.m[p]
  {
  }

  lemma {:induction false} RunKeepsInv(s: State, run: seq<Step>)
    requires Inv(s) && Exec(s, run).Some?
    ensures Inv(Exec(s, run).value)
    decreases |run|
  {
    if run != [] {
      StepKeepsInv(s, run[0]);
      RunKeepsInv(Apply(s, run[0]).value, run[1..]);
    }
  }

  lemma {:induction false} ClosedStays(s: State, run: seq<Step>)
    requires Exec(s, run).Some?
    ensures s.closed <= Exec(s, run).value.closed
    decreases |run|
  {
    if run != [] {
      ClosedStays(Apply(s, run[0]).value, run[1..]);
    }
  }

  /** Each principal has at most one live registered bridge, and `Lookup` finds exactly that one;
      every entry belongs to a handler that completed its hello and has not left; and the
      connected gauge counts the handlers between hello and exit. */
  lemma OneLiveBridgePerPrincipal(run: seq<Step>)
    requires Exec(INIT, run).Some?
    ensures var s := Exec(INIT, run).value;
      && (forall h: nat, k: nat | LiveBridge(s, h) && LiveBridge(s, k) ::
            s.handlers[h].principal == s.handlers[k].principal ==> h == k)
      && (forall h: nat :: LiveBridge(s, h) ==> Lookup(s.m, s.closed, s.handlers[h].principal) == Some(h))
      && (forall p: Principal :: Lookup(s.m, s.closed, p).Some? ==>
            var h := Lookup(s.m, s.closed, p).value; LiveBridge(s, h) && s.handlers[h].principal == p)
      && (forall p <- s.m :: s.m[p] < |s.handlers| && s.handlers[s.m[p]].helloOk && s.handlers[s.m[p]].phase.Waiting?)
      && s.gauge == CountCounted(s.handlers)
  {
    RunKeepsInv(INIT, run);
  }

  /** A handler whose hello fails is closed and gone without having been counted; one whose connection is
      done, or whose registration was refused, can leave, which takes back its count and its entry. */
  lemma HandlersLeave(run: seq<Step>, h: ConnId)
    requires Exec(INIT, run).Some? && h < |Exec(INIT, run).value.handlers|
    ensures var s := Exec(INIT, run).value;
      var x := s.handlers[h];
      && (x.phase.Hello? ==>
            Apply(s, HelloFails(h)) == Some(To(s, h, Gone).(closed := s.closed + {h})))
      && (x.phase.Waiting? && h in s.closed ==>
            && Exec(s, [DoneThenUnregister(h)] + ([Leave(h)] + [])).Some?
            && var s' := Exec(s, [DoneThenUnregister(h)] + ([Leave(h)] + [])).value;
            IsAt(s', h, Gone) && s'.gauge == s.gauge - 1 && h !in s'.m.Values)
      && (x.phase.Rejected? ==>
            Apply(s, Leave(h)) == Some(To(s, h, Gone).(gauge := s.gauge - 1, closed := s.closed + {h})))
  {
    RunKeepsInv(INIT, run);
    var s := Exec(INIT, run).value;
    if s.handlers[h].phase.Waiting? && h in s.closed {
      var s1 := Apply(s, DoneThenUnregister(h)).value;
      var s2 := Apply(s1, Leave(h)).value;
      assert ([DoneThenUnregister(h)] + ([Leave(h)] + []))[1..] == [Leave(h)] + [];
      assert ([Leave(h)] + [])[1..] == [];
      assert Exec(s1, [Leave(h)] + []) == Some(s2);
      assert h !in s2.m.Values by {
        assert forall p <- s2.m :: p in s.m && s2.m[p] == s.m[p];
      }
    }
  }

  /** In every state a run reaches, a handler past its hello whose connection is open gets its
      principal's bridge exactly when no other handler has it, even if a closed connection's entry
      is still there; otherwise it is closed and the bridge stays with the other. */
  lemma ReconnectsIff(run: seq<Step>, h: ConnId)
    requires Exec(INIT, run).Some? && IsAt(Exec(INIT, run).value, h, Connected) && h !in Exec(INIT, run).value.closed
    ensures var s := Exec(INIT, run).value;
      var p := s.handlers[h].principal;
      var taken := exists k: nat :: LiveBridge(s, k) && s.handlers[k].principal == p;
      && Apply(s, CallRegister(h)).Some?
      && var s' := Apply(s, CallRegister(h)).value;
      && (LiveBridge(s', h) <==> !taken)
      && (Lookup(s'.m, s'.closed, p) == Some(h) <==> !taken)
      && (taken ==> h in s'.closed && s'.m == s.m)
  {
    RunKeepsInv(INIT, run);
    var s := Exec(INIT, run).value;
    var p := s.handlers[h].principal;
    RegistersIff(s.m, s.closed, p, h);
    if p in s.m && s.m[p] !in s.closed {
      assert LiveBridge(s, s.m[p]) && s.handlers[s.m[p]].principal == p;
    }
  }

  /** From any reachable state, whatever the other handlers go on to do, a bridge that is still open
      at the end has kept its entry throughout. */
  lemma {:induction false} LiveBridgeIsNeverDisplaced(s: State, run: seq<Step>, p: Principal)
    requires Inv(s) && p in s.m && Exec(s, run).Some? && s.m[p] !in Exec(s, run).value.closed
    ensures p in Exec(s, run).value.m && Exec(s, run).value.m[p] == s.m[p]
    decreases |run|
  {
    if run != [] {
      var s' := Apply(s, run[0]).value;
      ClosedStays(s', run[1..]);
      StepKeepsInv(s, run[0]);
      StepKeepsLive(s, run[0], p);
      LiveBridgeIsNeverDisplaced(s', run[1..], p);
    }
  }
}
