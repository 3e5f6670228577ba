/** Every interleaving of one bridge connection: callers in `Call`, the read loop split at the
    lock boundary of `deliverResponse`, daemon goroutines answering in any order, `Close`.

    A step either is done, cannot be taken yet (`Blocked`), or is a Go run-time panic. */
module BridgeRun {
  import opened Wrappers
  import opened Frames
  import opened Daemon
  import opened Transport

  datatype Ret = Reply(frame: Frame) | Failure

  /** Where a `Call` stands. `Leaving` is after the select, before the deferred delete. */
  datatype Phase = Checked | Numbered | Inserted | Waiting | Leaving(ret: Ret) | Returned(ret: Ret)

  /** `id` is 0 until `nextID.Add(1)` has been executed. */
  datatype Call = Call(name: string, params: Json, id: nat, phase: Phase)

  datatype Reader =
    | Reading
    | Got(frame: Frame)
    | Holding(call: nat, frame: Frame)
    | Sent(call: nat, sid: nat)
    | Exiting
    | Stopped

  /** The wire is a bag in each direction. `served` is the history of what daemon goroutines
      wrote: the request each was started for, and its response. */
  datatype System = System(
    conn: Conn, calls: seq<Call>, reader: Reader,
    toDaemon: multiset<Frame>, serving: multiset<Frame>, toServer: multiset<Frame>,
    served: set<(Frame, Frame)>)

  const INIT := System(Conn(0, map[], map[], false, Open), [], Reading, multiset{}, multiset{}, multiset{}, {})

  /** The steps of one `Call`, in the order of its source; the four after the write are the
      branches of its select. */
  datatype Act =
    | TakeId | MarshalFails | InsertPending
    | WriteDone | WriteFails(sent: bool)
    | ReceiveFrame | ReceiveClosed | TimesOut | ConnectionDone
    | DeletePending

  datatype Step =
    // a caller, named by the number of its Call
    | StartCall(name: string, params: Json)
    | Caller(c: nat, act: Act)
    // the daemon
    | DaemonReads(req: Frame)
    | DaemonAnswers(req: Frame, badParams: Option<string>, answer: Answer)
    | DaemonGoroutineDies(req: Frame)
    | StrayResponse(resp: Frame)
    // the read loop
    | ReadFrame(frame: Frame)
    | TakePending
    | SendReply
    | CloseReply
    | ReadLoopExits
    | ReadLoopStops
    // whoever won closeOnce
    | CloseBegins
    | CloseCancels
    | CloseDrains
    // the parent context
    | ParentCancels

  datatype Effect = Done(s: System) | Blocked | Panic

  function Request(c: Call): Frame { Req(c.id, c.name, c.params) }

  function At(s: System, c: nat, phase: Phase): System
    requires c < |s.calls|
  {
    s.(calls := s.calls[c := s.calls[c].(phase := phase)])
  }

  predicate IsAt(s: System, c: nat, phase: Phase) { c < |s.calls| && s.calls[c].phase == phase }

  function ApplyCaller(s: System, c: nat, act: Act): Effect {
    match act
    case TakeId =>
      if !IsAt(s, c, Checked) then Blocked else
      var id := s.conn.nextID + 1;
      Done(s.(conn := s.conn.(nextID := id),
              calls := s.calls[c := s.calls[c].(id := id, phase := Numbered)]))
    case MarshalFails =>
      if !IsAt(s, c, Numbered) then Blocked else Done(At(s, c, Returned(Failure)))
    case InsertPending =>
      if !IsAt(s, c, Numbered) then Blocked else
      Done(At(s, c, Inserted).(conn := Insert(s.conn, s.calls[c].id, c)))
    case WriteDone =>
      if !IsAt(s, c, Inserted) then Blocked else
      Done(At(s, c, Waiting).(toDaemon := s.toDaemon + multiset{Request(s.calls[c])}))
    case WriteFails(sent) =>
      if !IsAt(s, c, Inserted) then Blocked else
      Done(At(s, c, Leaving(Failure)).(toDaemon :=
        s.toDaemon + if sent then multiset{Request(s.calls[c])} else multiset{}))
    case ReceiveFrame =>
      if !IsAt(s, c, Waiting) || c !in s.conn.chans || |s.conn.chans[c].buf| == 0 then Blocked else
      var ch := s.conn.chans[c];
      Done(At(s, c, Leaving(Reply(ch.buf[0]))).(conn :=
        s.conn.(chans := s.conn.chans[c := ch.(buf := ch.buf[1..])])))
    case ReceiveClosed =>
      if !IsAt(s, c, Waiting) || c !in s.conn.chans
         || |s.conn.chans[c].buf| != 0 || !s.conn.chans[c].closed then Blocked
      else Done(At(s, c, Leaving(Failure)))
    case TimesOut =>
      if !IsAt(s, c, Waiting) then Blocked else Done(At(s, c, Leaving(Failure)))
    case ConnectionDone =>
      if !IsAt(s, c, Waiting) || !s.conn.cancelled then Blocked else Done(At(s, c, Leaving(Failure)))
    case DeletePending =>
      if c >= |s.calls| || !s.calls[c].phase.Leaving? then Blocked else
      Done(At(s, c, Returned(s.calls[c].phase.ret)).(conn := Delete(s.conn, s.calls[c].id)))
  }

  function Apply(opts: Options, s: System, st: Step): Effect {
    match st
    case StartCall(name, params) =>
      var phase := if s.conn.cancelled then Returned(Failure) else Checked;
      Done(s.(calls := s.calls + [Call(name, params, 0, phase)]))
    case DaemonReads(req) =>
      if req !in s.toDaemon || !req.Req? then Blocked else
      Done(s.(toDaemon := s.toDaemon - multiset{req}, serving := s.serving + multiset{req}))
    case DaemonAnswers(req, badParams, answer) =>
      if req !in s.serving || !req.Req? then Blocked else
      var resp := Response(opts, req, badParams, answer);
      Done(s.(serving := s.serving - multiset{req},
              toServer := s.toServer + multiset{resp},
              served := s.served + {(req, resp)}))
    case DaemonGoroutineDies(req) =>
      if req !in s.serving then Blocked else Done(s.(serving := s.serving - multiset{req}))
    case StrayResponse(resp) =>
      if !resp.Resp? then Blocked else Done(s.(toServer := s.toServer + multiset{resp}))
    case ReadFrame(f) =>
      if !s.reader.Reading? || f !in s.toServer then Blocked else
      Done(s.(toServer := s.toServer - multiset{f}, reader := Got(f)))
    case TakePending =>
      if !s.reader.Got? then Blocked else
      var f := s.reader.frame;
      Done(s.(conn := Delete(s.conn, f.id),
              reader := match Lookup(s.conn, f.id)
                        case Some(c) => Holding(c, f)
                        case None => Reading))
    case SendReply =>
      if !s.reader.Holding? || s.reader.call !in s.conn.chans then Blocked else
      var ch := s.conn.chans[s.reader.call];
      if ch.closed then Panic
      else if |ch.buf| >= 1 then Blocked
      else Done(s.(conn := Put(s.conn, s.reader.call, s.reader.frame),
                   reader := Sent(s.reader.call, s.reader.frame.id)))
    case CloseReply =>
      if !s.reader.Sent? || s.reader.call !in s.conn.chans then Blocked
      else if s.conn.chans[s.reader.call].closed then Panic
      else Done(s.(conn := Shut(s.conn, s.reader.call), reader := Reading))
    case ReadLoopExits =>
      if !s.reader.Reading? then Blocked else Done(s.(reader := Exiting))
    case ReadLoopStops =>
      if !s.reader.Exiting? || !s.conn.close.Drained? then Blocked else Done(s.(reader := Stopped))
    case CloseBegins =>
      if !s.conn.close.Open? then Blocked else Done(s.(conn := s.conn.(close := Closing)))
    case CloseCancels =>
      if !s.conn.close.Closing? then Blocked else Done(s.(conn := s.conn.(cancelled := true, close := Cancelled)))
    case CloseDrains =>
      if !s.conn.close.Cancelled? then Blocked
      else if DoubleClose(s.conn) then Panic
      else Done(s.(conn := Drain(s.conn)))
    case ParentCancels => Done(s.(conn := s.conn.(cancelled := true)))
    case Caller(c, act) => ApplyCaller(s, c, act)
  }

  /** Draining would close a closed channel: one already closed, or one registered twice. */
  predicate DoubleClose(c: Conn) {
    || (exists id <- c.pending :: c.pending[id] in c.chans && c.chans[c.pending[id]].closed)
    || (exists i <- c.pending, j <- c.pending :: i != j && c.pending[i] == c.pending[j])
  }

  function Exec(opts: Options, s: System, run: seq<Step>): Effect
    decreases |run|
  {
    if run == [] then Done(s)
    else match Apply(opts, s, run[0])
      case Done(s') => Exec(opts, s', run[1..])
      case e => e
  }

  // ---- the invariant of every run ----

  predicate Live(p: Phase) { p.Inserted? || p.Waiting? || p.Leaving? }

  predicate HasChan(p: Phase) { Live(p) || p.Returned? }

  /** Ids are fresh: positive once taken, never above the counter, never shared by two calls. */
  ghost predicate IdsFresh(calls: seq<Call>, nextID: nat) {
    && (forall c | 0 <= c < |calls| ::
          && calls[c].id <= nextID
          && (calls[c].phase.Numbered? || Live(calls[c].phase) ==> calls[c].id != 0)
          && (calls[c].phase.Checked? ==> calls[c].id == 0))
    && (forall c, d | 0 <= c < d < |calls| && calls[c].id != 0 :: calls[c].id != calls[d].id)
  }

  /** A pending entry belongs to a live call that has that id, and its channel is fresh. */
  ghost predicate PendingOwned(conn: Conn, calls: seq<Call>) {
    forall id <- conn.pending ::
      var c := conn.pending[id];
      && c < |calls| && calls[c].id == id && Live(calls[c].phase)
      && c in conn.chans && conn.chans[c] == FRESH_CHAN
  }

  /** A channel belongs to a call past its insertion, and only carries frames with that call's id. */
  ghost predicate ChansOwned(chans: map<nat, Chan>, calls: seq<Call>) {
    && (forall c <- chans :: c < |calls| && calls[c].id != 0 && HasChan(calls[c].phase))
    && (forall c <- chans :: forall f <- chans[c].buf :: f.id == calls[c].id)
    && (forall c | 0 <= c < |calls| && Live(calls[c].phase) :: c in chans)
  }

  ghost predicate RepliesOwned(calls: seq<Call>) {
    forall c | 0 <= c < |calls| ::
      var p := calls[c].phase;
      (p.Leaving? || p.Returned?) && p.ret.Reply? ==> p.ret.frame.id == calls[c].id && calls[c].id != 0
  }

  /** Between its lock boundary and its `close`, the read loop alone can touch the channel. */
  ghost predicate ReaderOwns(s: System) {
    match s.reader
    case Holding(c, f) =>
      && c in s.conn.chans && c < |s.calls| && s.conn.chans[c] == FRESH_CHAN
      && s.calls[c].id == f.id && f.id !in s.conn.pending
    case Sent(c, id) =>
      && c in s.conn.chans && c < |s.calls| && !s.conn.chans[c].closed
      && s.calls[c].id == id && id !in s.conn.pending
    case _ => true
  }

  ghost predicate Inv(s: System) {
    && IdsFresh(s.calls, s.conn.nextID)
    && PendingOwned(s.conn, s.calls)
    && ChansOwned(s.conn.chans, s.calls)
    && RepliesOwned(s.calls)
    && ReaderOwns(s)
  }

  lemma PhaseKeepsIds(calls: seq<Call>, nextID: nat, c: nat, p: Phase)
    requires IdsFresh(calls, nextID) && RepliesOwned(calls)
    requires c < |calls| && calls[c].id != 0 && !p.Checked?
    requires (p.Leaving? || p.Returned?) && p.ret.Reply? ==> p.ret.frame.id == calls[c].id
    ensures IdsFresh(calls[c := calls[c].(phase := p)], nextID)
    ensures RepliesOwned(calls[c := calls[c].(phase := p)])
  {
  }

  /** A move within the select, or out of the call: the id and the channel stay the call's own. */
  lemma MovePhase(s: System, c: nat, p: Phase)
    requires Inv(s) && c < |s.calls|
    requires !s.calls[c].phase.Checked? && !s.calls[c].phase.Returned?
    requires if s.calls[c].phase.Numbered? then p == Returned(Failure) else p.Waiting? || p.Leaving?
    requires p.Leaving? && p.ret.Reply? ==> p.ret.frame.id == s.calls[c].id
    ensures Inv(At(s, c, p))
  {
    PhaseKeepsIds(s.calls, s.conn.nextID, c, p);
    assert ChansOwned(s.conn.chans, At(s, c, p).calls);
  }

  lemma TakeIdKeepsInv(s: System, c: nat)
    requires Inv(s) && IsAt(s, c, Checked)
    ensures Inv(ApplyCaller(s, c, TakeId).s)
  {
    assert forall id <- s.conn.pending :: s.conn.pending[id] != c;
  }

  lemma InsertKeepsOwners(conn: Conn, calls: seq<Call>, c: nat)
    requires PendingOwned(conn, calls) && ChansOwned(conn.chans, calls)
    requires c < |calls| && calls[c].phase.Numbered? && calls[c].id != 0
    ensures var calls' := calls[c := calls[c].(phase := Inserted)];
      && PendingOwned(Insert(conn, calls[c].id, c), calls')
      && ChansOwned(Insert(conn, calls[c].id, c).chans, calls')
  {
    assert c !in conn.chans;
    assert forall i <- conn.pending :: conn.pending[i] != c;
  }

  lemma InsertKeepsInv(s: System, c: nat)
    requires Inv(s) && IsAt(s, c, Numbered)
    ensures Inv(At(s, c, Inserted).(conn := Insert(s.conn, s.calls[c].id, c)))
  {
    InsertKeepsOwners(s.conn, s.calls, c);
    PhaseKeepsIds(s.calls, s.conn.nextID, c, Inserted);
    if s.reader.Holding? || s.reader.Sent? {
      var d := s.reader.call;
      assert d != c;
      assert s.calls[d].id != s.calls[c].id;
    }
  }

  /** Taking the buffered frame out: the channel was already out of the pending map. */
  lemma PopKeepsInv(s: System, c: nat)
    requires Inv(s) && c in s.conn.chans && |s.conn.chans[c].buf| != 0
    ensures Inv(s.(conn := s.conn.(chans := s.conn.chans[c := s.conn.chans[c].(buf := s.conn.chans[c].buf[1..])])))
  {
    var ch := s.conn.chans[c];
    var chans' := s.conn.chans[c := ch.(buf := ch.buf[1..])];
    assert forall f <- ch.buf[1..] :: f in ch.buf;
    assert ChansOwned(chans', s.calls);
    assert forall id <- s.conn.pending :: s.conn.pending[id] != c;
  }

  lemma ReceiveKeepsInv(s: System, c: nat)
    requires Inv(s) && ApplyCaller(s, c, ReceiveFrame).Done?
    ensures Inv(ApplyCaller(s, c, ReceiveFrame).s)
  {
    var ch := s.conn.chans[c];
    PopKeepsInv(s, c);
    assert ch.buf[0] in ch.buf;
    MovePhase(s.(conn := s.conn.(chans := s.conn.chans[c := ch.(buf := ch.buf[1..])])), c, Leaving(Reply(ch.buf[0])));
  }

  lemma DeleteKeepsInv(s: System, c: nat)
    requires Inv(s) && c < |s.calls| && s.calls[c].phase.Leaving?
    ensures Inv(ApplyCaller(s, c, DeletePending).s)
  {
    PhaseKeepsIds(s.calls, s.conn.nextID, c, Returned(s.calls[c].phase.ret));
    assert ChansOwned(s.conn.chans, At(s, c, Returned(s.calls[c].phase.ret)).calls);
  }

  lemma CallerKeepsInv(s: System, c: nat, act: Act)
    requires Inv(s)
    ensures ApplyCaller(s, c, act) != Panic
    ensures ApplyCaller(s, c, act).Done? ==> Inv(ApplyCaller(s, c, act).s)
  {
    if ApplyCaller(s, c, act).Done? {
      match act
      case TakeId => TakeIdKeepsInv(s, c);
      case MarshalFails => MovePhase(s, c, Returned(Failure));
      case InsertPending => InsertKeepsInv(s, c);
      case WriteDone => MovePhase(s, c, Waiting);
      case ReceiveFrame => ReceiveKeepsInv(s, c);
      case DeletePending => DeleteKeepsInv(s, c);
      case _ => MovePhase(s, c, Leaving(Failure));
    }
  }

  lemma StartCallKeepsInv(s: System, call: Call)
    requires Inv(s) && call.id == 0 && (call.phase.Checked? || call.phase == Returned(Failure))
    ensures Inv(s.(calls := s.calls + [call]))
  {
  }

  lemma TakePendingKeepsInv(opts: Options, s: System)
    requires Inv(s) && s.reader.Got?
    ensures Inv(Apply(opts, s, TakePending).s)
  {
  }

  lemma SendKeepsInv(opts: Options, s: System)
    requires Inv(s) && s.reader.Holding?
    ensures Apply(opts, s, SendReply).Done? && Inv(Apply(opts, s, SendReply).s)
  {
  }

  lemma CloseReplyKeepsInv(opts: Options, s: System)
    requires Inv(s) && s.reader.Sent?
    ensures Apply(opts, s, CloseReply).Done? && Inv(Apply(opts, s, CloseReply).s)
  {
  }

  lemma DrainKeepsInv(opts: Options, s: System)
    requires Inv(s) && s.conn.close.Cancelled?
    ensures Apply(opts, s, CloseDrains).Done? && Inv(Apply(opts, s, CloseDrains).s)
  {
  }

  lemma StepKeepsInv(opts: Options, s: System, st: Step)
    requires Inv(s)
    ensures Apply(opts, s, st) != Panic
    ensures Apply(opts, s, st).Done? ==> Inv(Apply(opts, s, st).s)
  {
    if Apply(opts, s, st) != Blocked {
      match st
      case StartCall(name, params) =>
        StartCallKeepsInv(s, Call(name, params, 0, if s.conn.cancelled then Returned(Failure) else Checked));
      case Caller(c, act) => CallerKeepsInv(s, c, act);
      case TakePending => TakePendingKeepsInv(opts, s);
      case SendReply => SendKeepsInv(opts, s);
      case CloseReply => CloseReplyKeepsInv(opts, s);
      case CloseDrains => DrainKeepsInv(opts, s);
      case _ =>
    }
  }

  /** No run panics, and every state a run reaches satisfies the invariant. */
  lemma {:induction false} RunKeepsInv(opts: Options, s: System, run: seq<Step>)
    requires Inv(s)
    ensures Exec(opts, s, run) != Panic
    ensures Exec(opts, s, run).Done? ==> Inv(Exec(opts, s, run).s)
    decreases |run|
  {
    if run != [] {
      StepKeepsInv(opts, s, run[0]);
      if Apply(opts, s, run[0]).Done? {
        RunKeepsInv(opts, Apply(opts, s, run[0]).s, run[1..]);
      }
    }
  }

  // ---- reply channels ----

  /** In every interleaving, with any stray or duplicate responses on the wire and with `Close`
      at any point, no step sends on a closed channel or closes one twice, and the read loop,
      once it has a response in hand, can always go on: its send finds the buffer empty. */
  lemma ChannelsAreSafe(opts: Options, run: seq<Step>)
    ensures Exec(opts, INIT, run) != Panic
    ensures Exec(opts, INIT, run).Done? ==>
      var s := Exec(opts, INIT, run).s;
      && (forall st :: Apply(opts, s, st) != Panic)
      && (s.reader.Got? ==> Apply(opts, s, TakePending).Done?)
      && (s.reader.Holding? ==> Apply(opts, s, SendReply).Done?)
      && (s.reader.Sent? ==> Apply(opts, s, CloseReply).Done?)
      && (s.conn.close.Cancelled? ==> Apply(opts, s, CloseDrains).Done?)
      && PendingSound(s.conn)
  {
    RunKeepsInv(opts, INIT, run);
    if Exec(opts, INIT, run).Done? {
      var s := Exec(opts, INIT, run).s;
      forall st ensures Apply(opts, s, st) != Panic { StepKeepsInv(opts, s, st); }
      if s.reader.Holding? { SendKeepsInv(opts, s); }
      if s.reader.Sent? { CloseReplyKeepsInv(opts, s); }
      if s.conn.close.Cancelled? { DrainKeepsInv(opts, s); }
    }
  }

  // ---- which reply a call gets ----

  /** A run in which the daemon alone puts responses on the wire, one per goroutine. */
  ghost predicate Honest(run: seq<Step>) { forall st <- run :: !st.StrayResponse? }

  /** `req` was written by a call of this connection, under the id that call took. */
  ghost predicate Issued(calls: seq<Call>, nextID: nat, req: Frame) {
    && req.Req? && 0 < req.id <= nextID
    && forall c | 0 <= c < |calls| && calls[c].id == req.id :: req == Request(calls[c])
  }

  ghost function AnswersIn(served: set<(Frame, Frame)>): set<Frame> { set p <- served :: p.1 }

  ghost predicate ChansCarry(chans: map<nat, Chan>, answers: set<Frame>) {
    forall c <- chans :: forall f <- chans[c].buf :: f in answers
  }

  ghost predicate CallsReturn(calls: seq<Call>, answers: set<Frame>) {
    forall c | 0 <= c < |calls| ::
      var p := calls[c].phase;
      (p.Leaving? || p.Returned?) && p.ret.Reply? ==> p.ret.frame in answers
  }

  ghost predicate RequestsIssued(opts: Options, s: System) {
    && (forall req <- s.toDaemon :: Issued(s.calls, s.conn.nextID, req))
    && (forall req <- s.serving :: Issued(s.calls, s.conn.nextID, req))
    && (forall p <- s.served :: Issued(s.calls, s.conn.nextID, p.0) && Daemon.Answers(opts, p.0, p.1))
  }

  /** Every response on its way to a caller was written by a daemon goroutine. */
  ghost predicate ResponsesServed(s: System) {
    var answers := AnswersIn(s.served);
    && (forall f <- s.toServer :: f in answers)
    && (s.reader.Got? || s.reader.Holding? ==> s.reader.frame in answers)
    && ChansCarry(s.conn.chans, answers)
    && CallsReturn(s.calls, answers)
  }

  ghost predicate HonestInv(opts: Options, s: System) { RequestsIssued(opts, s) && ResponsesServed(s) }

  lemma CallerKeepsIssued(opts: Options, s: System, c: nat, act: Act)
    requires IdsFresh(s.calls, s.conn.nextID) && RequestsIssued(opts, s) && ApplyCaller(s, c, act).Done?
    ensures RequestsIssued(opts, ApplyCaller(s, c, act).s)
  {
    var s' := ApplyCaller(s, c, act).s;
    forall req | Issued(s.calls, s.conn.nextID, req)
      ensures Issued(s'.calls, s'.conn.nextID, req)
    {
      assert forall d | 0 <= d < |s.calls| && d != c :: s'.calls[d] == s.calls[d];
    }
    if act.WriteDone? || act.WriteFails? {
      assert Issued(s'.calls, s'.conn.nextID, Request(s.calls[c]));
    }
  }

  lemma CallerKeepsServed(s: System, c: nat, act: Act)
    requires ResponsesServed(s) && ApplyCaller(s, c, act).Done?
    ensures ResponsesServed(ApplyCaller(s, c, act).s)
  {
    var s' := ApplyCaller(s, c, act).s;
    if act.ReceiveFrame? {
      var buf := s.conn.chans[c].buf;
      assert buf[0] in buf && forall f <- buf[1..] :: f in buf;
    }
    assert ChansCarry(s'.conn.chans, AnswersIn(s.served));
    assert CallsReturn(s'.calls, AnswersIn(s.served));
  }

  lemma DaemonKeepsHonest(opts: Options, s: System, req: Frame, badParams: Option<string>, answer: Answer)
    requires HonestInv(opts, s) && Apply(opts, s, DaemonAnswers(req, badParams, answer)).Done?
    ensures HonestInv(opts, Apply(opts, s, DaemonAnswers(req, badParams, answer)).s)
  {
    var s' := Apply(opts, s, DaemonAnswers(req, badParams, answer)).s;
    var resp := Response(opts, req, badParams, answer);
    ResponseAnswers(opts, req, badParams, answer);
    assert AnswersIn(s'.served) == AnswersIn(s.served) + {resp} by {
      assert (req, resp) in s'.served;
    }
  }

  predicate MovesResponse(st: Step) {
    st.ReadFrame? || st.TakePending? || st.SendReply? || st.CloseReply? || st.CloseDrains?
  }

  lemma ReaderKeepsHonest(opts: Options, s: System, st: Step)
    requires HonestInv(opts, s) && MovesResponse(st) && Apply(opts, s, st).Done?
    ensures HonestInv(opts, Apply(opts, s, st).s)
  {
    var s' := Apply(opts, s, st).s;
    assert s'.calls == s.calls && s'.conn.nextID == s.conn.nextID && s'.served == s.served;
    assert ChansCarry(s'.conn.chans, AnswersIn(s.served));
  }

  lemma StartKeepsHonest(opts: Options, s: System, call: Call)
    requires HonestInv(opts, s) && call.id == 0 && (call.phase.Checked? || call.phase == Returned(Failure))
    ensures HonestInv(opts, s.(calls := s.calls + [call]))
  {
  }

  /** Steps that only lose or move requests, or only change a control phase. */
  predicate OnlyControl(st: Step) {
    || st.DaemonReads? || st.DaemonGoroutineDies? || st.ReadLoopExits? || st.ReadLoopStops?
    || st.CloseBegins? || st.CloseCancels? || st.ParentCancels?
  }

  lemma ControlKeepsHonest(opts: Options, s: System, st: Step)
    requires HonestInv(opts, s) && OnlyControl(st) && Apply(opts, s, st).Done?
    ensures HonestInv(opts, Apply(opts, s, st).s)
  {
    var s' := Apply(opts, s, st).s;
    assert s'.calls == s.calls && s'.served == s.served && s'.conn.nextID == s.conn.nextID;
    assert s'.toServer == s.toServer && s'.conn.chans == s.conn.chans;
  }

  lemma StepKeepsHonest(opts: Options, s: System, st: Step)
    requires Inv(s) && HonestInv(opts, s) && !st.StrayResponse? && Apply(opts, s, st).Done?
    ensures HonestInv(opts, Apply(opts, s, st).s)
  {
    if OnlyControl(st) {
      ControlKeepsHonest(opts, s, st);
    } else if MovesResponse(st) {
      ReaderKeepsHonest(opts, s, st);
    } else if st.Caller? {
      CallerKeepsIssued(opts, s, st.c, st.act);
      CallerKeepsServed(s, st.c, st.act);
    } else if st.DaemonAnswers? {
      DaemonKeepsHonest(opts, s, st.req, st.badParams, st.answer);
    } else {
      StartKeepsHonest(opts, s, Call(st.name, st.params, 0, if s.conn.cancelled then Returned(Failure) else Checked));
    }
  }

  lemma {:induction false} RunKeepsHonest(opts: Options, s: System, run: seq<Step>)
    requires Inv(s) && HonestInv(opts, s) && Honest(run) && Exec(opts, s, run).Done?
    ensures HonestInv(opts, Exec(opts, s, run).s)
    decreases |run|
  {
    if run != [] {
      StepKeepsInv(opts, s, run[0]);
      StepKeepsHonest(opts, s, run[0]);
      RunKeepsHonest(opts, Apply(opts, s, run[0]).s, run[1..]);
    }
  }

  predicate GotReply(s: System, c: nat) {
    c < |s.calls| && s.calls[c].phase.Returned? && s.calls[c].phase.ret.Reply?
  }

  /** A `Call` that returns a frame returns what a daemon goroutine wrote for that very request:
      the method, parameters and id are those of the call, whatever else was in flight, timed out
      or answered late; it carries no result if the daemon does not permit the method. And no
      response reaches two calls. */
  lemma RepliesMatchRequests(opts: Options, run: seq<Step>, c: nat)
    requires Honest(run) && Exec(opts, INIT, run).Done?
    requires GotReply(Exec(opts, INIT, run).s, c)
    ensures var s := Exec(opts, INIT, run).s;
      && (Request(s.calls[c]), s.calls[c].phase.ret.frame) in s.served
      && Daemon.Answers(opts, Request(s.calls[c]), s.calls[c].phase.ret.frame)
      && forall d: nat :: d != c && GotReply(s, d) ==> s.calls[d].phase.ret.frame.id != s.calls[c].phase.ret.frame.id
  {
    RunKeepsInv(opts, INIT, run);
    RunKeepsHonest(opts, INIT, run);
  }

  /** Even with stray responses a call only ever returns a frame carrying its own id, so that no
      frame reaches two calls. */
  lemma RepliesCarryTheId(opts: Options, run: seq<Step>, c: nat)
    requires Exec(opts, INIT, run).Done? && GotReply(Exec(opts, INIT, run).s, c)
    ensures var s := Exec(opts, INIT, run).s;
      && s.calls[c].phase.ret.frame.id == s.calls[c].id && s.calls[c].id != 0
      && forall d: nat :: d != c && GotReply(s, d) ==> s.calls[d].phase.ret.frame.id != s.calls[c].phase.ret.frame.id
  {
    RunKeepsInv(opts, INIT, run);
  }

  // ---- after Close ----

  /** How many steps of its own a call can still take. */
  function Rank(p: Phase): nat {
    match p
    case Checked => 5
    case Numbered => 4
    case Inserted => 3
    case Waiting => 2
    case Leaving(_) => 1
    case Returned(_) => 0
  }

  function Measure(calls: seq<Call>): nat {
    if calls == [] then 0 else Rank(calls[0].phase) + Measure(calls[1..])
  }

  function CallerSteps(run: seq<Step>): nat {
    if run == [] then 0 else (if run[0].Caller? then 1 else 0) + CallerSteps(run[1..])
  }

  lemma {:induction false} MeasureUpdate(calls: seq<Call>, c: nat, call: Call)
    requires c < |calls|
    ensures Measure(calls[c := call]) == Measure(calls) - Rank(calls[c].phase) + Rank(call.phase)
  {
    if c == 0 {
      assert calls[c := call][1..] == calls[1..];
    } else {
      assert calls[c := call][1..] == calls[1..][c - 1 := call];
      MeasureUpdate(calls[1..], c - 1, call);
    }
  }

  lemma {:induction false} MeasureAppend(calls: seq<Call>, call: Call)
    ensures Measure(calls + [call]) == Measure(calls) + Rank(call.phase)
  {
    if calls != [] {
      assert (calls + [call])[1..] == calls[1..] + [call];
      MeasureAppend(calls[1..], call);
    }
  }

  /** Once the connection is cancelled no call can start, so a step of a caller uses up some of the
      measure and any other step leaves it alone. */
  lemma StepMeasure(opts: Options, s: System, st: Step)
    requires s.conn.cancelled && Apply(opts, s, st).Done?
    ensures Apply(opts, s, st).s.conn.cancelled
    ensures Measure(Apply(opts, s, st).s.calls) + (if st.Caller? then 1 else 0) <= Measure(s.calls)
  {
    match st {
      case StartCall(name, params) => MeasureAppend(s.calls, Call(name, params, 0, Returned(Failure)));
      case Caller(c, act) => CallerMeasure(s, c, act);
      case _ =>
    }
  }

  lemma CallerMeasure(s: System, c: nat, act: Act)
    requires ApplyCaller(s, c, act).Done?
    ensures ApplyCaller(s, c, act).s.conn.cancelled == s.conn.cancelled
    ensures Measure(ApplyCaller(s, c, act).s.calls) < Measure(s.calls)
  {
    var s' := ApplyCaller(s, c, act).s;
    assert s'.calls == s.calls[c := s'.calls[c]];
    assert Rank(s'.calls[c].phase) < Rank(s.calls[c].phase);
    MeasureUpdate(s.calls, c, s'.calls[c]);
  }

  /** After cancellation, every continuation contains at most `Measure` caller steps. */
  lemma {:induction false} CallsReturnWithinMeasure(opts: Options, s: System, run: seq<Step>)
    requires s.conn.cancelled && Exec(opts, s, run).Done?
    ensures CallerSteps(run) + Measure(Exec(opts, s, run).s.calls) <= Measure(s.calls)
    decreases |run|
  {
    if run != [] {
      StepMeasure(opts, s, run[0]);
      CallsReturnWithinMeasure(opts, Apply(opts, s, run[0]).s, run[1..]);
    }
  }

  predicate HasReturned(s: System, c: nat) { c < |s.calls| && s.calls[c].phase.Returned? }

  /** The step a call can take after cancellation, wherever it stood, including one that passed the
      `Closed` check before the cancellation and registers itself after the drain. */
  function NextAct(p: Phase): Act {
    match p
    case Checked => TakeId
    case Numbered => InsertPending
    case Inserted => WriteFails(false)
    case Waiting => ConnectionDone
    case _ => DeletePending
  }

  /** After `Close`, no call hangs: each one not returned has an enabled step, in every state a run
      can reach; and when all have returned the pending map is empty. */
  lemma NoCallHangsAfterClose(opts: Options, run: seq<Step>)
    requires Exec(opts, INIT, run).Done?
    ensures var s := Exec(opts, INIT, run).s;
      && (s.conn.cancelled ==> forall c | 0 <= c < |s.calls| && !HasReturned(s, c) ::
            Apply(opts, s, Caller(c, NextAct(s.calls[c].phase))).Done?)
      && ((forall c | 0 <= c < |s.calls| :: HasReturned(s, c)) ==> s.conn.pending == map[])
  {
    RunKeepsInv(opts, INIT, run);
    var s := Exec(opts, INIT, run).s;
    if s.conn.pending != map[] {
      var id :| id in s.conn.pending;
      assert !HasReturned(s, s.conn.pending[id]);
    }
  }

  /** What is left for the read loop to do once the connection no longer delivers frames. */
  function ReadLoopRest(s: System): seq<Step> {
    match s.reader
    case Reading => [ReadLoopExits] + [ReadLoopStops]
    case Got(f) =>
      [TakePending] + (
        if f.id in s.conn.pending then [SendReply] + ([CloseReply] + ([ReadLoopExits] + [ReadLoopStops]))
        else [ReadLoopExits] + [ReadLoopStops])
    case Holding(_, _) => [SendReply] + ([CloseReply] + ([ReadLoopExits] + [ReadLoopStops]))
    case Sent(_, _) => [CloseReply] + ([ReadLoopExits] + [ReadLoopStops])
    case Exiting => [ReadLoopStops]
    case Stopped => []
  }

  predicate Stops(opts: Options, s: System, run: seq<Step>) {
    Exec(opts, s, run).Done? && Exec(opts, s, run).s.reader.Stopped?
  }

  /** Doing `st` and then `rest` stops the read loop if `rest` does from there. */
  lemma StopsAfter(opts: Options, s: System, st: Step, rest: seq<Step>)
    requires Apply(opts, s, st).Done? && Stops(opts, Apply(opts, s, st).s, rest)
    ensures Stops(opts, s, [st] + rest)
  {
    assert ([st] + rest)[1..] == rest;
  }

  lemma StopsFromExiting(opts: Options, s: System)
    requires s.reader.Exiting? && s.conn.close.Drained?
    ensures Stops(opts, s, [ReadLoopStops])
  {
    StopsAfter(opts, s, ReadLoopStops, []);
    assert [ReadLoopStops] + [] == [ReadLoopStops];
  }

  lemma StopsFromReading(opts: Options, s: System)
    requires s.reader.Reading? && s.conn.close.Drained?
    ensures Stops(opts, s, [ReadLoopExits] + [ReadLoopStops])
  {
    StopsFromExiting(opts, Apply(opts, s, ReadLoopExits).s);
    StopsAfter(opts, s, ReadLoopExits, [ReadLoopStops]);
  }

  lemma StopsFromSent(opts: Options, s: System)
    requires Inv(s) && s.reader.Sent? && s.conn.close.Drained?
    ensures Stops(opts, s, [CloseReply] + ([ReadLoopExits] + [ReadLoopStops]))
  {
    StopsFromReading(opts, Apply(opts, s, CloseReply).s);
    StopsAfter(opts, s, CloseReply, [ReadLoopExits] + [ReadLoopStops]);
  }

  lemma StopsFromHolding(opts: Options, s: System)
    requires Inv(s) && s.reader.Holding? && s.conn.close.Drained?
    ensures Stops(opts, s, [SendReply] + ([CloseReply] + ([ReadLoopExits] + [ReadLoopStops])))
  {
    SendKeepsInv(opts, s);
    StopsFromSent(opts, Apply(opts, s, SendReply).s);
    StopsAfter(opts, s, SendReply, [CloseReply] + ([ReadLoopExits] + [ReadLoopStops]));
  }

  lemma StopsFromGot(opts: Options, s: System)
    requires Inv(s) && s.reader.Got? && s.conn.close.Drained?
    ensures Stops(opts, s, ReadLoopRest(s))
  {
    TakePendingKeepsInv(opts, s);
    var s1 := Apply(opts, s, TakePending).s;
    if s1.reader.Holding? {
      StopsFromHolding(opts, s1);
    } else {
      StopsFromReading(opts, s1);
    }
    StopsAfter(opts, s, TakePending, ReadLoopRest(s1));
  }

  /** After `Close` the read loop can always run to its end, delivering what it has in hand, so the
      handler waiting for it can go on to unregister the bridge. */
  lemma ReadLoopCanStop(opts: Options, run: seq<Step>)
    requires Exec(opts, INIT, run).Done? && Exec(opts, INIT, run).s.conn.close.Drained?
    ensures Stops(opts, Exec(opts, INIT, run).s, ReadLoopRest(Exec(opts, INIT, run).s))
  {
    RunKeepsInv(opts, INIT, run);
    var s := Exec(opts, INIT, run).s;
    match s.reader {
      case Reading => StopsFromReading(opts, s);
      case Got(_) => StopsFromGot(opts, s);
      case Holding(_, _) => StopsFromHolding(opts, s);
      case Sent(_, _) => StopsFromSent(opts, s);
      case Exiting => StopsFromExiting(opts, s);
      case Stopped =>
    }
  }

  // ---- a call that is answered ----

  /** The run can be taken, and leaves call `c` returned with `ret` and its id unregistered. */
  predicate Returns(opts: Options, s: System, run: seq<Step>, c: nat, ret: Ret) {
    && Exec(opts, s, run).Done?
    && var s' := Exec(opts, s, run).s;
    IsAt(s', c, Returned(ret)) && s'.calls[c].id !in s'.conn.pending
  }

  lemma ReturnsAfter(opts: Options, s: System, st: Step, rest: seq<Step>, c: nat, ret: Ret)
    requires Apply(opts, s, st).Done? && Returns(opts, Apply(opts, s, st).s, rest, c, ret)
    ensures Returns(opts, s, [st] + rest, c, ret)
  {
    assert ([st] + rest)[1..] == rest;
  }

  function Depart(c: nat): seq<Step> { [Caller(c, DeletePending)] + [] }

  function Receive(c: nat): seq<Step> { [Caller(c, ReceiveFrame)] + Depart(c) }

  function Hand(c: nat): seq<Step> { [SendReply] + ([CloseReply] + Receive(c)) }

  function Deliver(c: nat): seq<Step> { [TakePending] + Hand(c) }

  lemma DepartReturns(opts: Options, s: System, c: nat, ret: Ret)
    requires IsAt(s, c, Leaving(ret))
    ensures Returns(opts, s, Depart(c), c, ret)
  {
    ReturnsAfter(opts, s, Caller(c, DeletePending), [], c, ret);
  }

  lemma ReceiveReturns(opts: Options, s: System, c: nat, f: Frame)
    requires IsAt(s, c, Waiting) && c in s.conn.chans && s.conn.chans[c].buf == [f]
    ensures Returns(opts, s, Receive(c), c, Reply(f))
  {
    DepartReturns(opts, Apply(opts, s, Caller(c, ReceiveFrame)).s, c, Reply(f));
    ReturnsAfter(opts, s, Caller(c, ReceiveFrame), Depart(c), c, Reply(f));
  }

  lemma HandReturns(opts: Options, s: System, c: nat, f: Frame)
    requires Inv(s) && s.reader == Holding(c, f) && IsAt(s, c, Waiting)
    ensures Returns(opts, s, Hand(c), c, Reply(f))
  {
    var s1 := Apply(opts, s, SendReply).s;
    var s2 := Apply(opts, s1, CloseReply).s;
    assert s2.conn.chans[c].buf == [f] && s2.calls == s.calls;
    ReceiveReturns(opts, s2, c, f);
    ReturnsAfter(opts, s1, CloseReply, Receive(c), c, Reply(f));
    ReturnsAfter(opts, s, SendReply, [CloseReply] + Receive(c), c, Reply(f));
  }

  /** A response of a registered id reaches the call that registered it. */
  lemma DeliverReturns(opts: Options, s: System, c: nat, f: Frame)
    requires Inv(s) && s.reader == Got(f) && f.id in s.conn.pending && s.conn.pending[f.id] == c
    requires IsAt(s, c, Waiting)
    ensures Returns(opts, s, Deliver(c), c, Reply(f))
  {
    TakePendingKeepsInv(opts, s);
    HandReturns(opts, Apply(opts, s, TakePending).s, c, f);
    ReturnsAfter(opts, s, TakePending, Hand(c), c, Reply(f));
  }

  /** After every run, a waiting call whose response the read loop has in hand, before or after the
      lookup, can be handed that very response, and returns it. */
  lemma ResponseInHandIsReturned(opts: Options, run: seq<Step>, c: nat)
    requires Exec(opts, INIT, run).Done? && IsAt(Exec(opts, INIT, run).s, c, Waiting)
    ensures var s := Exec(opts, INIT, run).s;
      && (forall f :: s.reader == Holding(c, f) ==> Returns(opts, s, Hand(c), c, Reply(f)))
      && (forall f :: s.reader == Got(f) && f.id in s.conn.pending && s.conn.pending[f.id] == c ==>
            Returns(opts, s, Deliver(c), c, Reply(f)))
  {
    RunKeepsInv(opts, INIT, run);
    var s := Exec(opts, INIT, run).s;
    match s.reader {
      case Holding(d, f) => if d == c { HandReturns(opts, s, c, f); }
      case Got(f) => if f.id in s.conn.pending && s.conn.pending[f.id] == c { DeliverReturns(opts, s, c, f); }
      case _ =>
    }
  }

  /** A stale response is dropped: nothing but the read loop moves on. */
  lemma StaleResponseIsDropped(opts: Options, s: System)
    requires s.reader.Got? && s.reader.frame.id !in s.conn.pending
    ensures Apply(opts, s, TakePending) == Done(s.(reader := Reading))
  {
    assert s.conn.pending - {s.reader.frame.id} == s.conn.pending;
  }

  /** Taken without interruption, the three steps of a delivery are `deliverResponse`. */
  lemma DeliveryIsDelivered(opts: Options, s: System, f: Frame)
    requires Inv(s) && s.reader == Got(f) && f.id in s.conn.pending
    ensures PendingSound(s.conn)
    ensures Exec(opts, s, [TakePending] + ([SendReply] + ([CloseReply] + [])))
         == Done(s.(conn := Delivered(s.conn, f), reader := Reading))
    ensures var ch := Delivered(s.conn, f).chans[s.conn.pending[f.id]]; ch.buf == [f] && ch.closed
  {
    var c := s.conn.pending[f.id];
    var s1 := s.(conn := Delete(s.conn, f.id), reader := Holding(c, f));
    var s2 := s1.(conn := Put(s1.conn, c, f), reader := Sent(c, f.id));
    var s3 := s2.(conn := Shut(s2.conn, c), reader := Reading);
    ExecStep(opts, s2, CloseReply, [], s3);
    ExecStep(opts, s1, SendReply, [CloseReply] + [], s2);
    ExecStep(opts, s, TakePending, [SendReply] + ([CloseReply] + []), s1);
  }

  lemma ExecStep(opts: Options, s: System, st: Step, rest: seq<Step>, s': System)
    requires Apply(opts, s, st) == Done(s')
    ensures Exec(opts, s, [st] + rest) == Exec(opts, s', rest)
  {
    assert ([st] + rest)[1..] == rest;
  }

  // ---- a whole call ----

  /** From the write of the request to the return of its answer, with nothing in between. */
  function Serve(c: nat, req: Frame, bad: Option<string>, answer: Answer, resp: Frame): seq<Step> {
    [Caller(c, WriteDone)] + BeAnswered(c, req, bad, answer, resp)
  }

  function BeAnswered(c: nat, req: Frame, bad: Option<string>, answer: Answer, resp: Frame): seq<Step> {
    [DaemonReads(req)] + ([DaemonAnswers(req, bad, answer)] + ([ReadFrame(resp)] + Deliver(c)))
  }

  lemma ServeReturns(opts: Options, s: System, c: nat, bad: Option<string>, answer: Answer)
    requires Inv(s) && s.reader.Reading? && IsAt(s, c, Inserted)
    requires s.calls[c].id in s.conn.pending && s.conn.pending[s.calls[c].id] == c
    ensures var req := Request(s.calls[c]);
      var resp := Response(opts, req, bad, answer);
      Returns(opts, s, Serve(c, req, bad, answer, resp), c, Reply(resp))
  {
    var req := Request(s.calls[c]);
    var resp := Response(opts, req, bad, answer);
    var s1 := Apply(opts, s, Caller(c, WriteDone)).s;
    StepKeepsInv(opts, s, Caller(c, WriteDone));
    assert req in s1.toDaemon;
    AnswerReturns(opts, s1, c, req, bad, answer);
    ReturnsAfter(opts, s, Caller(c, WriteDone), BeAnswered(c, req, bad, answer, resp), c, Reply(resp));
  }

  /** A request still on its way can be read, answered and delivered. */
  lemma AnswerReturns(opts: Options, s: System, c: nat, req: Frame, bad: Option<string>, answer: Answer)
    requires Inv(s) && s.reader.Reading? && IsAt(s, c, Waiting) && req in s.toDaemon && req.Req?
    requires req.id in s.conn.pending && s.conn.pending[req.id] == c
    ensures var resp := Response(opts, req, bad, answer);
      Returns(opts, s, BeAnswered(c, req, bad, answer, resp), c, Reply(resp))
  {
    var resp := Response(opts, req, bad, answer);
    ResponseAnswers(opts, req, bad, answer);
    var s1 := Apply(opts, s, DaemonReads(req)).s;
    var s2 := Apply(opts, s1, DaemonAnswers(req, bad, answer)).s;
    var s3 := Apply(opts, s2, ReadFrame(resp)).s;
    assert Inv(s3);
    DeliverReturns(opts, s3, c, resp);
    ReturnsAfter(opts, s2, ReadFrame(resp), Deliver(c), c, Reply(resp));
    ReturnsAfter(opts, s1, DaemonAnswers(req, bad, answer), [ReadFrame(resp)] + Deliver(c), c, Reply(resp));
    ReturnsAfter(opts, s, DaemonReads(req),
      [DaemonAnswers(req, bad, answer)] + ([ReadFrame(resp)] + Deliver(c)), c, Reply(resp));
  }

  /** A new call, from its check of `Closed` to its return. */
  function WholeCall(
      s: System, name: string, params: Json, bad: Option<string>, answer: Answer, resp: Frame): seq<Step>
  {
    var c := |s.calls|;
    var req := Req(s.conn.nextID + 1, name, params);
    [StartCall(name, params)] + ([Caller(c, TakeId)] + ([Caller(c, InsertPending)] + Serve(c, req, bad, answer, resp)))
  }

  /** In every state a run reaches with the connection up and the read loop reading, whatever other
      calls are in flight, a new call can be made and returns what the daemon answers it. */
  lemma CallsCanBeAnswered(
      opts: Options, run: seq<Step>, name: string, params: Json, bad: Option<string>, answer: Answer)
    requires Exec(opts, INIT, run).Done?
    requires var s := Exec(opts, INIT, run).s; !s.conn.cancelled && s.reader.Reading?
    ensures var s := Exec(opts, INIT, run).s;
      var resp := Response(opts, Req(s.conn.nextID + 1, name, params), bad, answer);
      Returns(opts, s, WholeCall(s, name, params, bad, answer, resp), |s.calls|, Reply(resp))
  {
    RunKeepsInv(opts, INIT, run);
    NewCallReturns(opts, Exec(opts, INIT, run).s, name, params, bad, answer);
  }

  lemma NewCallReturns(opts: Options, s: System, name: string, params: Json, bad: Option<string>, answer: Answer)
    requires Inv(s) && !s.conn.cancelled && s.reader.Reading?
    ensures var resp := Response(opts, Req(s.conn.nextID + 1, name, params), bad, answer);
      Returns(opts, s, WholeCall(s, name, params, bad, answer, resp), |s.calls|, Reply(resp))
  {
    var c := |s.calls|;
    var req := Req(s.conn.nextID + 1, name, params);
    var resp := Response(opts, req, bad, answer);
    var s1 := Apply(opts, s, StartCall(name, params)).s;
    StepKeepsInv(opts, s, StartCall(name, params));
    CheckedReturns(opts, s1, c, bad, answer);
    ReturnsAfter(opts, s, StartCall(name, params),
      [Caller(c, TakeId)] + ([Caller(c, InsertPending)] + Serve(c, req, bad, answer, resp)), c, Reply(resp));
  }

  lemma CheckedReturns(opts: Options, s: System, c: nat, bad: Option<string>, answer: Answer)
    requires Inv(s) && s.reader.Reading? && IsAt(s, c, Checked)
    ensures var req := Req(s.conn.nextID + 1, s.calls[c].name, s.calls[c].params);
      var resp := Response(opts, req, bad, answer);
      Returns(
        opts, s, [Caller(c, TakeId)] + ([Caller(c, InsertPending)] + Serve(c, req, bad, answer, resp)),
        c, Reply(resp))
  {
    var req := Req(s.conn.nextID + 1, s.calls[c].name, s.calls[c].params);
    var resp := Response(opts, req, bad, answer);
    var s1 := Apply(opts, s, Caller(c, TakeId)).s;
    StepKeepsInv(opts, s, Caller(c, TakeId));
    assert IsAt(s1, c, Numbered) && Request(s1.calls[c]) == req && s1.reader == s.reader;
    NumberedReturns(opts, s1, c, bad, answer);
    ReturnsAfter(opts, s, Caller(c, TakeId),
      [Caller(c, InsertPending)] + Serve(c, req, bad, answer, resp), c, Reply(resp));
  }

  lemma NumberedReturns(opts: Options, s: System, c: nat, bad: Option<string>, answer: Answer)
    requires Inv(s) && s.reader.Reading? && IsAt(s, c, Numbered)
    ensures var req := Request(s.calls[c]);
      var resp := Response(opts, req, bad, answer);
      Returns(opts, s, [Caller(c, InsertPending)] + Serve(c, req, bad, answer, resp), c, Reply(resp))
  {
    var req := Request(s.calls[c]);
    var resp := Response(opts, req, bad, answer);
    var s1 := Apply(opts, s, Caller(c, InsertPending)).s;
    StepKeepsInv(opts, s, Caller(c, InsertPending));
    assert IsAt(s1, c, Inserted) && Request(s1.calls[c]) == req && s1.reader == s.reader;
    ServeReturns(opts, s1, c, bad, answer);
    ReturnsAfter(opts, s, Caller(c, InsertPending), Serve(c, req, bad, answer, resp), c, Reply(resp));
  }

  /** Such a run, from the start: a stat is answered with the daemon's result. */
  lemma StatIsAnswered(opts: Options, params: Json, j: Json)
    ensures var run := [
      StartCall("stat", params), Caller(0, TakeId), Caller(0, InsertPending), Caller(0, WriteDone),
      DaemonReads(Req(1, "stat", params)), DaemonAnswers(Req(1, "stat", params), None, Value(j)),
      ReadFrame(Resp(1, Some(j), None)), TakePending, SendReply, CloseReply,
      Caller(0, ReceiveFrame), Caller(0, DeletePending)];
      Returns(opts, INIT, run, 0, Reply(Resp(1, Some(j), None)))
  {
    var req, resp := Req(1, "stat", params), Resp(1, Some(j), None);
    assert Response(opts, req, None, Value(j)) == resp;
    NewCallReturns(opts, INIT, "stat", params, None, Value(j));
    assert WholeCall(INIT, "stat", params, None, Value(j), resp) == [
      StartCall("stat", params), Caller(0, TakeId), Caller(0, InsertPending), Caller(0, WriteDone),
      DaemonReads(req), DaemonAnswers(req, None, Value(j)), ReadFrame(resp), TakePending, SendReply, CloseReply,
      Caller(0, ReceiveFrame), Caller(0, DeletePending)];
  }

  // ---- a call that fails ----

  /** What a call can do on its own account at each point, to return a failure. */
  lemma CallsCanFail(opts: Options, s: System, c: nat)
    ensures IsAt(s, c, Waiting) ==> Returns(opts, s, [Caller(c, TimesOut)] + Depart(c), c, Failure)
    ensures IsAt(s, c, Waiting) && s.conn.cancelled ==>
      Returns(opts, s, [Caller(c, ConnectionDone)] + Depart(c), c, Failure)
    ensures IsAt(s, c, Waiting) && c in s.conn.chans && s.conn.chans[c] == Chan([], true) ==>
      Returns(opts, s, [Caller(c, ReceiveClosed)] + Depart(c), c, Failure)
    ensures forall sent | IsAt(s, c, Inserted) ::
      Returns(opts, s, [Caller(c, WriteFails(sent))] + Depart(c), c, Failure)
    ensures IsAt(s, c, Numbered) ==>
      Apply(opts, s, Caller(c, MarshalFails)) == Done(At(s, c, Returned(Failure)))
  {
    if IsAt(s, c, Waiting) {
      FailsBy(opts, s, c, TimesOut);
      if s.conn.cancelled { FailsBy(opts, s, c, ConnectionDone); }
      if c in s.conn.chans && s.conn.chans[c] == Chan([], true) { FailsBy(opts, s, c, ReceiveClosed); }
    }
    if IsAt(s, c, Inserted) {
      forall sent
        ensures Returns(opts, s, [Caller(c, WriteFails(sent))] + Depart(c), c, Failure)
      {
        FailsBy(opts, s, c, WriteFails(sent));
      }
    }
  }

  lemma FailsBy(opts: Options, s: System, c: nat, act: Act)
    requires Apply(opts, s, Caller(c, act)).Done? && IsAt(Apply(opts, s, Caller(c, act)).s, c, Leaving(Failure))
    ensures Returns(opts, s, [Caller(c, act)] + Depart(c), c, Failure)
  {
    DepartReturns(opts, Apply(opts, s, Caller(c, act)).s, c, Failure);
    ReturnsAfter(opts, s, Caller(c, act), Depart(c), c, Failure);
  }

  /** The drain of `Close` wakes every call still registered with a closed channel, and no other. */
  lemma DrainWakes(opts: Options, s: System, c: nat)
    requires Inv(s) && s.conn.close.Cancelled? && c in s.conn.chans
    ensures Apply(opts, s, CloseDrains).Done?
    ensures var s' := Apply(opts, s, CloseDrains).s;
      && s'.conn.pending == map[] && c in s'.conn.chans
      && ((exists id <- s.conn.pending :: s.conn.pending[id] == c) ==> s'.conn.chans[c] == Chan([], true))
      && ((forall id <- s.conn.pending :: s.conn.pending[id] != c) ==> s'.conn.chans[c] == s.conn.chans[c])
  {
    DrainKeepsInv(opts, s);
  }

  lemma StepKeepsClosing(opts: Options, s: System, st: Step)
    requires Apply(opts, s, st).Done?
    requires s.conn.close.Cancelled? || s.conn.close.Drained? ==> s.conn.cancelled
    ensures var conn := Apply(opts, s, st).s.conn; conn.close.Cancelled? || conn.close.Drained? ==> conn.cancelled
  {
  }

  /** A connection whose pending map has been drained is cancelled, so that no call waits on it. */
  lemma {:induction false} DrainedIsCancelled(opts: Options, s: System, run: seq<Step>)
    requires Exec(opts, s, run).Done?
    requires s.conn.close.Cancelled? || s.conn.close.Drained? ==> s.conn.cancelled
    ensures var conn := Exec(opts, s, run).s.conn; conn.close.Cancelled? || conn.close.Drained? ==> conn.cancelled
    decreases |run|
  {
    if run != [] {
      StepKeepsClosing(opts, s, run[0]);
      DrainedIsCancelled(opts, Apply(opts, s, run[0]).s, run[1..]);
    }
  }
}
