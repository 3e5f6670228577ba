/** The server side of a bridge connection: the pending map, the reply channels and `Close`.

    A reply channel is a Go channel of capacity one, made by exactly one `Call`, so a channel is
    named by the number of the call that made it. The functions on `Conn` below are the critical
    sections of the source; `WsConn` performs them in place, and `BridgeRun` interleaves them. */
module Transport {
  import opened Wrappers
  import opened Frames

  datatype Chan = Chan(buf: seq<Frame>, closed: bool)

  /** `closeOnce` has been won; its winner has cancelled the context; the pending map is drained. */
  datatype ClosePhase = Open | Closing | Cancelled | Drained

  /** `cancelled` is the connection's context: `Close` cancels it, and so can its parent. */
  datatype Conn = Conn(nextID: nat, pending: map<nat, nat>, chans: map<nat, Chan>,
                       cancelled: bool, close: ClosePhase)

  const FRESH_CHAN := Chan([], false)

  /** Every registered channel exists, is open and empty, and is registered under one id. */
  ghost predicate PendingSound(c: Conn) {
    && (forall id <- c.pending :: c.pending[id] in c.chans && c.chans[c.pending[id]] == FRESH_CHAN)
    && (forall i, j :: i in c.pending && j in c.pending && c.pending[i] == c.pending[j] ==> i == j)
  }

  function Insert(c: Conn, id: nat, call: nat): Conn {
    c.(pending := c.pending[id := call], chans := c.chans[call := FRESH_CHAN])
  }

  function Delete(c: Conn, id: nat): Conn { c.(pending := c.pending - {id}) }

  function Lookup(c: Conn, id: nat): Option<nat> {
    if id in c.pending then Some(c.pending[id]) else None
  }

  function Put(c: Conn, call: nat, f: Frame): Conn
    requires call in c.chans
  {
    c.(chans := c.chans[call := c.chans[call].(buf := c.chans[call].buf + [f])])
  }

  function Shut(c: Conn, call: nat): Conn
    requires call in c.chans
  {
    c.(chans := c.chans[call := c.chans[call].(closed := true)])
  }

  function ShutAll(chans: map<nat, Chan>, calls: set<nat>): map<nat, Chan> {
    map k | k in chans :: if k in calls then chans[k].(closed := true) else chans[k]
  }

  function Drain(c: Conn): Conn {
    c.(pending := map[], chans := ShutAll(c.chans, c.pending.Values), close := Drained)
  }

  /** Closing and removing one entry leaves the same work to do. */
  lemma DrainOne(c: Conn, id: nat)
    requires PendingSound(c) && id in c.pending
    ensures PendingSound(Delete(Shut(c, c.pending[id]), id))
    ensures Drain(Delete(Shut(c, c.pending[id]), id)) == Drain(c)
  {
    var c' := Delete(Shut(c, c.pending[id]), id);
    forall k | k in c.chans
      ensures k in c'.chans && ShutAll(c'.chans, c'.pending.Values)[k] == ShutAll(c.chans, c.pending.Values)[k]
    {
      if k in c.pending.Values && k != c.pending[id] {
        var i :| i in c.pending && c.pending[i] == k;
        assert i in c'.pending && c'.pending[i] == k;
      }
    }
  }

  /** What one uninterrupted `deliverResponse` does. */
  function Delivered(c: Conn, f: Frame): Conn
    requires PendingSound(c)
  {
    if f.id in c.pending then
      Shut(Put(Delete(c, f.id), c.pending[f.id], f), c.pending[f.id])
    else c
  }

  class WsConn {
    var nextID: nat
    var pending: map<nat, nat>
    var chans: map<nat, Chan>
    var cancelled: bool
    var close: ClosePhase

    function View(): Conn
      reads this
    {
      Conn(nextID, pending, chans, cancelled, close)
    }

    constructor ()
      ensures View() == Conn(0, map[], map[], false, Open)
    {
      nextID := 0;
      pending := map[];
      chans := map[];
      cancelled := false;
      close := Open;
    }

    /** `nextID.Add(1)`: the first id handed out is 1. */
    method TakeID() returns (id: nat)
      modifies this
      ensures id == old(nextID) + 1
      ensures View() == old(View()).(nextID := id)
    {
      nextID := nextID + 1;
      id := nextID;
    }

    /** Makes the reply channel of a call and registers it. */
    method InsertPending(id: nat, call: nat)
      modifies this
      ensures View() == Insert(old(View()), id, call)
    {
      chans := chans[call := FRESH_CHAN];
      pending := pending[id := call];
    }

    /** The deferred `delete(c.pending, id)` of `Call`. */
    method DeletePending(id: nat)
      modifies this
      ensures View() == Delete(old(View()), id)
    {
      pending := pending - {id};
    }

    /** The locked part of `deliverResponse`: look up and remove in one critical section. */
    method TakePending(id: nat) returns (ch: Option<nat>)
      modifies this
      ensures ch == Lookup(old(View()), id)
      ensures View() == Delete(old(View()), id)
    {
      if id in pending {
        ch := Some(pending[id]);
      } else {
        ch := None;
      }
      pending := pending - {id};
    }

    /** `ch <- f`: the precondition is exactly that Go neither panics nor blocks. */
    method Send(call: nat, f: Frame)
      requires call in chans && !chans[call].closed && |chans[call].buf| < 1
      modifies this
      ensures View() == Put(old(View()), call, f)
    {
      var ch := chans[call];
      chans := chans[call := ch.(buf := ch.buf + [f])];
    }

    /** `close(ch)`: the precondition is exactly that Go does not panic. */
    method CloseChan(call: nat)
      requires call in chans && !chans[call].closed
      modifies this
      ensures View() == Shut(old(View()), call)
    {
      chans := chans[call := chans[call].(closed := true)];
    }

    method DeliverResponse(f: Frame)
      requires PendingSound(View())
      modifies this
      ensures View() == Delivered(old(View()), f)
      ensures PendingSound(View())
    {
      var ch := TakePending(f.id);
      if ch.None? {
        assert pending == old(pending);
        return;
      }
      Send(ch.value, f);
      CloseChan(ch.value);
    }

    /** The loop of `Close` over the pending map, under the lock. Channels it does not find there
        are left alone. */
    method DrainPending()
      requires PendingSound(View())
      modifies this
      ensures View() == Drain(old(View()))
    {
      while pending != map[]
        invariant PendingSound(View())
        invariant Drain(View()) == Drain(old(View()))
        decreases pending.Keys
      {
        var id :| id in pending;
        DrainOne(View(), id);
        CloseChan(pending[id]);
        pending := pending - {id};
      }
      assert ShutAll(chans, {}) == chans;
      close := Drained;
    }

    /** `Close` run by the goroutine that wins `closeOnce`; for everyone else it is a no-op. */
    method Close() returns (won: bool)
      requires PendingSound(View())
      modifies this
      ensures won == old(close).Open?
      ensures View() == if won then Drain(old(View())).(cancelled := true) else old(View())
    {
      won := close.Open?;
      if won {
        close := Closing;
        cancelled := true;
        close := Cancelled;
        DrainPending();
      }
    }
  }
}
