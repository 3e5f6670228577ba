/** FUSE calls that overlap. A `Getattr` asks the daemon and remembers the answer in two steps, and
    a mutating call changes the daemon's tree and drops cache keys in two steps; no lock spans
    either pair, so an answer can be remembered after the keys it belonged under were dropped. */
module StatRace {
  import opened Wrappers
  import opened StatCache

  /** A `Getattr` between the daemon's look at the tree, in its given version, and its `cachePut`.
      `late` says that the key of its path has been dropped since. */
  datatype Lookup = Lookup(p: Path, found: Option<Stat>, version: nat, late: bool)

  /** The lookup an entry came from, and when it was put. */
  datatype Origin = Origin(version: nat, at: int, late: bool)

  /** `versions` is the history of the daemon's tree, the current one last. Lookups in flight are
      numbered. `owed` lists the paths that operations carried out have yet to invalidate. */
  datatype Race = Race(
    versions: seq<Tree>, cache: Cache, now: int, lookups: map<nat, Lookup>, next: nat,
    owed: seq<Path>, origin: map<Path, Origin>)

  datatype RStep =
    | Tick(now: int)
    | StatReply(p: Path)              // the daemon looks; only found and not-found are remembered
    | CachePut(id: nat)
    | Mutated(op: Op, after: Tree)
    | Invalidates(k: nat)
    | CacheDelete(key: Key)           // an expired entry

  function Mounted(t: Tree, now: int): Race { Race([t], map[], now, map[], 0, [], map[]) }

  function Current(s: Race): Tree { if s.versions == [] then map[] else s.versions[|s.versions| - 1] }

  function Found(t: Tree, p: Path): Option<Stat> { if p in t then Some(t[p]) else None }

  /** `InvalidateCache(p)` drops the key of `q`. */
  predicate Drops(p: Path, q: Path) { q == p || (|p| > 1 && q == Parent(p)) }

  function Named(op: Op): seq<Path> {
    match op
    case OnPath(_, p) => [p]
    case Rename(from, to) => [from, to]
  }

  /** The answer is one that `Getattr` goes on to remember. */
  predicate Remembers(t: Tree, p: Path) { StatRpc(t, p) != Err(ENOTDIR) }

  ghost function RApply(s: Race, st: RStep): Option<Race> {
    match st
    case Tick(now) => if now < s.now then None else Some(s.(now := now))
    case StatReply(p) =>
      if s.versions == [] || !Remembers(Current(s), p) then Some(s)
      else
        var l := Lookup(p, Found(Current(s), p), |s.versions| - 1, false);
        Some(s.(lookups := s.lookups[s.next := l], next := s.next + 1))
    case CachePut(id) =>
      if id !in s.lookups then None
      else
        var l := s.lookups[id];
        Some(s.(cache := s.cache[Rel(l.p) := Entry(l.found, s.now + TTL)],
                origin := s.origin[l.p := Origin(l.version, s.now, l.late)],
                lookups := s.lookups - {id}))
    case Mutated(op, after) =>
      if !Effect(op, Current(s), after) then None
      else Some(s.(versions := s.versions + [after], owed := s.owed + Named(op)))
    case Invalidates(k) =>
      if k >= |s.owed| then None
      else
        Some(s.(cache := Invalidate(s.cache, s.owed[k]),
                lookups := map id | id in s.lookups ::
                  s.lookups[id].(late := s.lookups[id].late || Drops(s.owed[k], s.lookups[id].p)),
                owed := s.owed[..k] + s.owed[k + 1..]))
    case CacheDelete(key) => Some(s.(cache := s.cache - {key}))
  }

  ghost function RExec(s: Race, run: seq<RStep>): Option<Race>
    decreases |run|
  {
    if run == [] then Some(s)
    else match RExec(s, run[..|run| - 1])
      case Some(s') => RApply(s', run[|run| - 1])
      case None => None
  }

  // ---- answers are never invented, nor older than they may be ----

  ghost predicate FromVersion(s: Race, p: Path, found: Option<Stat>, version: nat) {
    && version < |s.versions|
    && Remembers(s.versions[version], p) && found == Found(s.versions[version], p)
  }

  ghost predicate EntryDated(s: Race, p: Path) {
    Rel(p) in s.cache ==>
      && p in s.origin
      && FromVersion(s, p, s.cache[Rel(p)].found, s.origin[p].version)
      && s.origin[p].at <= s.now && s.cache[Rel(p)].expiresAt == s.origin[p].at + TTL
  }

  ghost predicate Dated(s: Race) {
    && (forall id <- s.lookups ::
          id < s.next && FromVersion(s, s.lookups[id].p, s.lookups[id].found, s.lookups[id].version))
    && (forall p: Path :: EntryDated(s, p))
  }

  lemma StepKeepsDated(s: Race, st: RStep)
    requires Dated(s) && RApply(s, st).Some?
    ensures Dated(RApply(s, st).value)
  {
    var s' := RApply(s, st).value;
    assert forall p, f, v | FromVersion(s, p, f, v) :: FromVersion(s', p, f, v);
    forall p: Path
      ensures EntryDated(s', p)
    {
      assert EntryDated(s, p);
    }
  }

  lemma {:induction false} RunKeepsDated(s: Race, run: seq<RStep>)
    requires Dated(s) && RExec(s, run).Some?
    ensures Dated(RExec(s, run).value)
    decreases |run|
  {
    if run != [] {
      RunKeepsDated(s, run[..|run| - 1]);
      StepKeepsDated(RExec(s, run[..|run| - 1]).value, run[|run| - 1]);
    }
  }

  /** In every run, directory renames, the root and overlapping calls included, a cached answer is
      what the daemon had when it replied to that lookup, and was put in the past, at most one time
      to live ago. */
  lemma CachedAnswersAreBounded(t: Tree, start: int, run: seq<RStep>, p: Path)
    requires RExec(Mounted(t, start), run).Some?
    requires Fresh(RExec(Mounted(t, start), run).value.cache, p, RExec(Mounted(t, start), run).value.now)
    ensures var s := RExec(Mounted(t, start), run).value;
      && p in s.origin && s.origin[p].version < |s.versions|
      && s.origin[p].at <= s.now <= s.origin[p].at + TTL
      && Remembered(s.cache[Rel(p)]) == StatRpc(s.versions[s.origin[p].version], p)
  {
    RunKeepsDated(Mounted(t, start), run);
    assert EntryDated(RExec(Mounted(t, start), run).value, p);
  }

  // ---- settled entries agree ----

  /** Some operation already carried out has yet to drop the key of `q`. */
  predicate Owed(owed: seq<Path>, q: Path) { exists k :: 0 <= k < |owed| && Drops(owed[k], q) }

  /** With no drop of its key owed, what was looked up or cached for `q` since the last one is right. */
  ghost predicate Settled(s: Race, q: Path) {
    !Owed(s.owed, q) ==>
      && (forall id <- s.lookups ::
            s.lookups[id].p == q && !s.lookups[id].late ==> s.lookups[id].found == Found(Current(s), q))
      && (Rel(q) in s.cache && q in s.origin && !s.origin[q].late ==> s.cache[Rel(q)].found == Found(Current(s), q))
  }

  /** A rename that carries `q` along with a directory. */
  predicate Carries(t: Tree, op: Op, q: Path) { op.Rename? && op.from != op.to && Carried(t, op.from, op.to, q) }

  ghost predicate NeverCarried(s: Race, run: seq<RStep>, q: Path)
    decreases |run|
  {
    run == [] ||
    (var n := |run| - 1;
     && NeverCarried(s, run[..n], q)
     && (run[n].Mutated? && RExec(s, run[..n]).Some? ==> !Carries(Current(RExec(s, run[..n]).value), run[n].op, q)))
  }

  /** An operation changes nothing but what its invalidations will drop, what it carries along with a
      directory, and the root. */
  lemma EffectIsNamed(op: Op, t: Tree, t': Tree, q: Path)
    requires Effect(op, t, t') && q != [] && !Carries(t, op, q) && !Owed(Named(op), q)
    ensures Found(t', q) == Found(t, q)
  {
    assert Named(op)[0] in Named(op) && !Drops(Named(op)[0], q);
    match op
    case OnPath(kind, p) =>
      assert q != p && (p != [] ==> q != Parent(p));
    case Rename(from, to) =>
      assert !Drops(Named(op)[1], q);
      assert q != from && q != to && q != Parent(from) && q != Parent(to);
  }

  lemma OwedAppend(a: seq<Path>, b: seq<Path>, q: Path)
    ensures Owed(a + b, q) <==> Owed(a, q) || Owed(b, q)
  {
    if Owed(a, q) {
      var k :| 0 <= k < |a| && Drops(a[k], q);
      assert Drops((a + b)[k], q);
    }
    if Owed(b, q) {
      var k :| 0 <= k < |b| && Drops(b[k], q);
      assert Drops((a + b)[|a| + k], q);
    }
  }

  lemma OwedWithout(a: seq<Path>, k: nat, q: Path)
    requires k < |a|
    ensures Owed(a, q) <==> Owed(a[..k] + a[k + 1..], q) || Drops(a[k], q)
  {
    assert a == a[..k] + ([a[k]] + a[k + 1..]);
    OwedAppend(a[..k], [a[k]] + a[k + 1..], q);
    OwedAppend([a[k]], a[k + 1..], q);
    OwedAppend(a[..k], a[k + 1..], q);
    assert Owed([a[k]], q) <==> Drops(a[k], q) by { assert [a[k]][0] == a[k]; }
  }

  lemma StepKeepsSettled(s: Race, st: RStep, q: Path)
    requires Settled(s, q) && q != [] && RApply(s, st).Some?
    requires st.Mutated? ==> !Carries(Current(s), st.op, q)
    ensures Settled(RApply(s, st).value, q)
  {
    match st
    case Mutated(op, after) =>
      OwedAppend(s.owed, Named(op), q);
      if !Owed(Named(op), q) { EffectIsNamed(op, Current(s), after, q); }
    case Invalidates(k) => OwedWithout(s.owed, k, q);
    case _ =>
  }

  lemma {:induction false} RunKeepsSettled(s: Race, run: seq<RStep>, q: Path)
    requires Settled(s, q) && q != [] && RExec(s, run).Some? && NeverCarried(s, run, q)
    ensures Settled(RExec(s, run).value, q)
    decreases |run|
  {
    if run != [] {
      RunKeepsSettled(s, run[..|run| - 1], q);
      StepKeepsSettled(RExec(s, run[..|run| - 1]).value, run[|run| - 1], q);
    }
  }

  /** In every interleaving in which no directory rename carries `q` along, its entry differs from the
      tree only while an operation carried out has yet to drop its key, or if the key was dropped
      between the entry's stat reply and its put. */
  lemma SettledEntriesAgree(t: Tree, start: int, run: seq<RStep>, q: Path)
    requires RExec(Mounted(t, start), run).Some? && q != [] && NeverCarried(Mounted(t, start), run, q)
    requires var s := RExec(Mounted(t, start), run).value;
      !Owed(s.owed, q) && (q in s.origin ==> !s.origin[q].late)
    ensures AgreesAt(RExec(Mounted(t, start), run).value.cache, Current(RExec(Mounted(t, start), run).value), q)
  {
    RunKeepsSettled(Mounted(t, start), run, q);
    RunKeepsDated(Mounted(t, start), run);
    assert EntryDated(RExec(Mounted(t, start), run).value, q);
  }

  // ---- one lookup, with anything in between ----

  /** The entry that the window leaves at `q` was restatted by one of its operations, on the way it
      came to `q`. */
  ghost predicate Restatted(s: Race, window: seq<RStep>, q: Path)
    decreases |window|
  {
    window != [] &&
    var n := |window| - 1;
    var st := window[n];
    if !st.Mutated? then Restatted(s, window[..n], q)
    else
      || (RExec(s, window[..n]).Some? && Restats(Current(RExec(s, window[..n]).value), st.op, q))
      || Restatted(s, window[..n], CameFrom(st.op, q))
  }

  /** Where the entry that the window leaves at `q` was at its beginning: `q` itself, unless renames
      brought it there. */
  function Source(window: seq<RStep>, q: Path): Path {
    if window == [] then q
    else
      var n := |window| - 1;
      Source(window[..n], if window[n].Mutated? then CameFrom(window[n].op, q) else q)
  }

  /** The same calls in the same order; what the daemon's operations leave may be different. */
  predicate SameCall(a: RStep, b: RStep) { a == b || (a.Mutated? && b.Mutated? && a.op == b.op) }

  predicate SameCalls(a: seq<RStep>, b: seq<RStep>) {
    |a| == |b| && forall i | 0 <= i < |a| :: SameCall(a[i], b[i])
  }

  lemma SameCallsInit(a: seq<RStep>, b: seq<RStep>)
    requires SameCalls(a, b) && a != []
    ensures SameCalls(a[..|a| - 1], b[..|b| - 1]) && SameCall(a[|a| - 1], b[|b| - 1])
  {
  }

  /** Which paths exist afterwards does not depend on the outcome. */
  lemma EffectSameKeys(op: Op, t: Tree, t': Tree, u: Tree, u': Tree)
    requires Effect(op, t, t') && Effect(op, u, u') && t.Keys == u.Keys
    ensures t'.Keys == u'.Keys
  {
    assert forall q :: q in t <==> q in u;
    forall q
      ensures q in t' <==> q in u'
    {
      match op
      case OnPath(kind, p) =>
      case Rename(from, to) => assert from != to ==> (Below(q, to) ==> (q in t' <==> from + q[|to|..] in t));
    }
  }

  lemma {:induction false} SameCallsSameKeys(s: Race, a: seq<RStep>, b: seq<RStep>)
    requires SameCalls(a, b) && RExec(s, a).Some? && RExec(s, b).Some?
    ensures Current(RExec(s, a).value).Keys == Current(RExec(s, b).value).Keys
    decreases |a|
  {
    if a != [] {
      var n := |a| - 1;
      SameCallsInit(a, b);
      SameCallsSameKeys(s, a[..n], b[..n]);
      StepSameKeys(RExec(s, a[..n]).value, RExec(s, b[..n]).value, a[n], b[n]);
    }
  }

  lemma StepSameKeys(s: Race, u: Race, a: RStep, b: RStep)
    requires Current(s).Keys == Current(u).Keys && SameCall(a, b) && RApply(s, a).Some? && RApply(u, b).Some?
    ensures Current(RApply(s, a).value).Keys == Current(RApply(u, b).value).Keys
  {
    if a.Mutated? {
      EffectSameKeys(a.op, Current(s), a.after, Current(u), b.after);
      assert Current(RApply(s, a).value) == a.after && Current(RApply(u, b).value) == b.after;
    } else {
      assert Current(RApply(s, a).value) == Current(s) && Current(RApply(u, b).value) == Current(u);
    }
  }

  lemma {:induction false} SameCallsSameTrace(s: Race, a: seq<RStep>, b: seq<RStep>, q: Path)
    requires SameCalls(a, b) && RExec(s, a).Some? && RExec(s, b).Some?
    ensures Restatted(s, a, q) == Restatted(s, b, q) && Source(a, q) == Source(b, q)
    decreases |a|
  {
    if a != [] {
      var n := |a| - 1;
      SameCallsInit(a, b);
      SameCallsSameTrace(s, a[..n], b[..n], if a[n].Mutated? then CameFrom(a[n].op, q) else q);
      SameCallsSameKeys(s, a[..n], b[..n]);
      var sa, sb := RExec(s, a[..n]).value, RExec(s, b[..n]).value;
      assert forall p :: p in Current(sa) <==> p in Current(sb);
    }
  }

  /** An entry that was not restatted is the one it came from. */
  lemma {:induction false} UnrestattedIsSource(s: Race, window: seq<RStep>, q: Path)
    requires RExec(s, window).Some? && q in Current(RExec(s, window).value) && !Restatted(s, window, q)
    ensures Source(window, q) in Current(s)
    ensures Current(RExec(s, window).value)[q] == Current(s)[Source(window, q)]
    decreases |window|
  {
    if window != [] {
      var n := |window| - 1;
      var s1 := RExec(s, window[..n]).value;
      match window[n] {
        case Mutated(op, after) =>
          UnrestatedIsCarried(Current(s1), op, after, q);
          UnrestattedIsSource(s, window[..n], CameFrom(op, q));
        case _ => UnrestattedIsSource(s, window[..n], q);
      }
    }
  }

  /** An operation that does not restat an entry carries along whatever stat it has. */
  lemma CarriesAlong(op: Op, t: Tree, t': Tree, q: Path, st: Stat)
    requires Effect(op, t, t') && q in t' && !Restats(t, op, q) && st.isDir == t'[q].isDir
    ensures CameFrom(op, q) in t && t[CameFrom(op, q)] == t'[q]
    ensures Effect(op, t[CameFrom(op, q) := st], t'[q := st])
  {
    UnrestatedIsCarried(t, op, t', q);
    match op
    case OnPath(kind, p) => assert forall x :: x in t[q := st] <==> x in t;
    case Rename(from, to) => if from != to { RenameCarriesAlong(from, to, t, t', q, st); }
  }

  lemma RenameCarriesAlong(from: Path, to: Path, t: Tree, t': Tree, q: Path, st: Stat)
    requires RenameEffect(from, to, t, t') && from != to && q in t' && q != Parent(from) && q != Parent(to)
    requires st.isDir == t'[q].isDir
    requires var q0 := CameFrom(Rename(from, to), q); q0 in t && t[q0] == t'[q]
    ensures RenameEffect(from, to, t[CameFrom(Rename(from, to), q) := st], t'[q := st])
  {
    if q == to {
      assert CameFrom(Rename(from, to), q) == from;
      RenameCarriesTop(from, to, t, t', st);
    } else if Below(q, to) {
      RenameCarriesBelow(from, to, t, t', q, st);
    } else {
      RenameLeavesBe(from, to, t, t', q, st);
    }
  }

  lemma RenameCarriesTop(from: Path, to: Path, t: Tree, t': Tree, st: Stat)
    requires RenameEffect(from, to, t, t') && from != to && st.isDir == t[from].isDir
    ensures RenameEffect(from, to, t[from := st], t'[to := st])
  {
    assert Below(from, Parent(from)) && Below(to, Parent(to));
    var t1, t1' := t[from := st], t'[to := st];
    assert (forall x :: x in t1 <==> x in t) && (forall x :: x in t1' <==> x in t');
    forall x | Below(x, to)
      ensures from + x[|to|..] != from && x != to
      ensures x in t1' <==> from + x[|to|..] in t1
    {
      assert |from + x[|to|..]| > |from|;
    }
    assert KeepsDir(t1, t1', from) && KeepsDir(t1, t1', to);
  }

  lemma RenameCarriesBelow(from: Path, to: Path, t: Tree, t': Tree, q: Path, st: Stat)
    requires RenameEffect(from, to, t, t') && from != to && q in t' && Below(q, to) && st.isDir == t'[q].isDir
    ensures RenameEffect(from, to, t[from + q[|to|..] := st], t'[q := st])
  {
    var q0 := from + q[|to|..];
    assert q0[..|from|] == from && Below(q0, from) && q0 != from;
    assert Parent(from) != q0 && Parent(to) != q && Parent(from) != q && Parent(to) != q0 by {
      NotAParent(q, from, to);
      NotAParent(q0, from, to);
    }
    if Below(q, from) { Nested(q, from, to); }
    if Below(q0, to) { Nested(q0, from, to); }
    forall x | Below(x, to)
      ensures from + x[|to|..] == q0 <==> x == q
    {
      SameRest(from, to, x, q);
    }
  }

  lemma RenameLeavesBe(from: Path, to: Path, t: Tree, t': Tree, q: Path, st: Stat)
    requires RenameEffect(from, to, t, t') && from != to && q in t' && q != Parent(from) && q != Parent(to)
    requires q != to && !Below(q, to) && q in t && t[q] == t'[q] && st.isDir == t'[q].isDir
    ensures RenameEffect(from, to, t[q := st], t'[q := st])
  {
    assert !Below(q, from) && q != from;
    forall x | Below(x, to)
      ensures from + x[|to|..] != q
    {
      assert (from + x[|to|..])[..|from|] == from;
    }
  }

  /** Below `to` the places things come from are different for different places. */
  lemma SameRest(from: Path, to: Path, x: Path, q: Path)
    requires from != to && Below(x, to) && !Below(q, from)
    ensures from + x[|to|..] == CameFrom(Rename(from, to), q) <==> x == q
  {
    var y := from + x[|to|..];
    assert y[..|from|] == from && |y| > |from|;
    if y == CameFrom(Rename(from, to), q) {
      assert q == to || Below(q, to);
      assert y[|from|..] == x[|to|..] && y[|from|..] == q[|to|..];
      assert x == to + x[|to|..] && q == to + q[|to|..];
    }
  }

  /** The two states differ in nothing a step waits for. */
  predicate Alike(a: Race, b: Race) {
    && a.now == b.now && a.next == b.next && a.owed == b.owed
    && |a.versions| == |b.versions| && a.lookups.Keys == b.lookups.Keys
  }

  lemma RestatKeepsUnderFile(t: Tree, q: Path, st: Stat, p: Path)
    requires q in t && st.isDir == t[q].isDir
    ensures Remembers(t[q := st], p) == Remembers(t, p)
  {
    var u := t[q := st];
    assert forall n | 0 <= n < |p| :: p[..n] in u && !u[p[..n]].isDir <==> p[..n] in t && !t[p[..n]].isDir;
  }

  lemma AlikeStep(a: Race, b: Race, step: RStep, q: Path, st: Stat)
    requires Alike(a, b) && !step.Mutated? && RApply(a, step).Some?
    requires q in Current(a) && st.isDir == Current(a)[q].isDir && Current(b) == Current(a)[q := st]
    ensures RApply(b, step).Some? && Alike(RApply(a, step).value, RApply(b, step).value)
    ensures Current(RApply(a, step).value) == Current(a) && Current(RApply(b, step).value) == Current(b)
  {
    if step.StatReply? { RestatKeepsUnderFile(Current(a), q, st, step.p); }
  }

  lemma ExecSnoc(s: Race, window: seq<RStep>, st: RStep)
    requires RExec(s, window).Some?
    ensures RExec(s, window + [st]) == RApply(RExec(s, window).value, st)
  {
    assert (window + [st])[..|window|] == window;
  }

  lemma SameCallsSnoc(window: seq<RStep>, a: seq<RStep>, b: RStep)
    requires window != [] && SameCalls(window[..|window| - 1], a) && SameCall(window[|window| - 1], b)
    ensures SameCalls(window, a + [b])
  {
    forall i | 0 <= i < |window|
      ensures SameCall(window[i], (a + [b])[i])
    {
      assert i < |a| ==> SameCall(window[..|window| - 1][i], a[i]);
    }
  }

  /** Other outcomes of the last operation, after another course of the calls before it. */
  lemma AlikeMutated(a: Race, b: Race, op: Op, after: Tree, other: Tree)
    requires Alike(a, b) && RApply(a, Mutated(op, after)).Some? && Effect(op, Current(b), other)
    ensures RApply(b, Mutated(op, other)).Some?
    ensures Alike(RApply(a, Mutated(op, after)).value, RApply(b, Mutated(op, other)).value)
    ensures Current(RApply(a, Mutated(op, after)).value) == after
    ensures Current(RApply(b, Mutated(op, other)).value) == other
  {
  }

  /** If the window restats the entry it leaves at `q`, the same calls can leave another stat there. */
  lemma {:induction false} CanDiffer(s: Race, window: seq<RStep>, q: Path, than: Stat)
    returns (other: seq<RStep>, st: Stat)
    requires RExec(s, window).Some? && q in Current(RExec(s, window).value) && Restatted(s, window, q)
    ensures SameCalls(window, other) && RExec(s, other).Some?
    ensures Alike(RExec(s, window).value, RExec(s, other).value)
    ensures st != than && st.isDir == Current(RExec(s, window).value)[q].isDir
    ensures Current(RExec(s, other).value) == Current(RExec(s, window).value)[q := st]
    decreases |window|
  {
    var n := |window| - 1;
    var s1 := RExec(s, window[..n]).value;
    var before, last;
    match window[n] {
      case Mutated(op, after) =>
        if Restats(Current(s1), op, q) {
          before, st := window[..n], Other(op, after[q], than);
          RestatedCanDiffer(Current(s1), op, after, q, st);
        } else {
          UnrestatedIsCarried(Current(s1), op, after, q);
          before, st := CanDiffer(s, window[..n], CameFrom(op, q), than);
          CarriesAlong(op, Current(s1), after, q, st);
        }
        last := Mutated(op, after[q := st]);
        AlikeMutated(s1, RExec(s, before).value, op, after, after[q := st]);
      case _ =>
        before, st := CanDiffer(s, window[..n], q, than);
        last := window[n];
        AlikeStep(s1, RExec(s, before).value, last, q, st);
    }
    other := before + [last];
    ExecSnoc(s, before, last);
    SameCallsSnoc(window, before, last);
  }

  /** The lookup of `q` that the daemon answers in `s` is still in flight after the window. */
  ghost predicate Overtaken(s: Race, q: Path, window: seq<RStep>) {
    && RApply(s, StatReply(q)).Some?
    && RExec(RApply(s, StatReply(q)).value, window).Some?
    && s.next in RExec(RApply(s, StatReply(q)).value, window).value.lookups
  }

  /** And what it then remembers is what the daemon has. */
  ghost predicate PutIsRight(s: Race, q: Path, window: seq<RStep>)
    requires Overtaken(s, q, window)
  {
    var s2 := RExec(RApply(s, StatReply(q)).value, window).value;
    var s3 := RApply(s2, CachePut(s.next)).value;
    AgreesAt(s3.cache, Current(s3), q)
  }

  lemma {:induction false} LookupIsKept(s: Race, window: seq<RStep>, id: nat)
    requires id in s.lookups && id < s.next && RExec(s, window).Some?
    ensures var s' := RExec(s, window).value;
      && id < s'.next
      && (id in s'.lookups ==> s'.lookups[id].p == s.lookups[id].p && s'.lookups[id].found == s.lookups[id].found)
    decreases |window|
  {
    if window != [] { LookupIsKept(s, window[..|window| - 1], id); }
  }

  lemma PutIsRightIff(s: Race, q: Path, window: seq<RStep>)
    requires s.versions != [] && Remembers(Current(s), q) && Overtaken(s, q, window)
    ensures PutIsRight(s, q, window) <==>
      Found(Current(RExec(RApply(s, StatReply(q)).value, window).value), q) == Found(Current(s), q)
  {
    var s1 := RApply(s, StatReply(q)).value;
    LookupIsKept(s1, window, s.next);
    var s2 := RExec(s1, window).value;
    assert s2.lookups[s.next].p == q && s2.lookups[s.next].found == Found(Current(s), q);
    var s3 := RApply(s2, CachePut(s.next)).value;
    assert Current(s3) == Current(s2) && s3.cache[Rel(q)].found == Found(Current(s), q);
  }

  /** The entry the window leaves at `q` is, untouched, one with the stat replied; or there is none
      at either end. */
  ghost predicate ComesOutTheSame(s: Race, q: Path, window: seq<RStep>)
    requires Overtaken(s, q, window)
  {
    var s1 := RApply(s, StatReply(q)).value;
    if q in Current(RExec(s1, window).value) then
      !Restatted(s1, window, q) && q in Current(s)
      && Found(Current(s), Source(window, q)) == Found(Current(s), q)
    else q !in Current(s)
  }

  lemma RestattedCanBeWrong(s: Race, q: Path, window: seq<RStep>)
    requires s.versions != [] && Remembers(Current(s), q) && Overtaken(s, q, window) && q in Current(s)
    requires var s1 := RApply(s, StatReply(q)).value;
      q in Current(RExec(s1, window).value) && Restatted(s1, window, q)
    ensures exists w :: SameCalls(window, w) && Overtaken(s, q, w) && !PutIsRight(s, q, w)
  {
    var s1 := RApply(s, StatReply(q)).value;
    var w, st := CanDiffer(s1, window, q, Current(s)[q]);
    assert Overtaken(s, q, w);
    PutIsRightIff(s, q, w);
  }

  lemma SameForEveryOutcome(s: Race, q: Path, window: seq<RStep>, w: seq<RStep>)
    requires s.versions != [] && Remembers(Current(s), q)
    requires Overtaken(s, q, window) && Overtaken(s, q, w) && SameCalls(window, w)
    ensures ComesOutTheSame(s, q, window) <==> ComesOutTheSame(s, q, w)
  {
    var s1 := RApply(s, StatReply(q)).value;
    SameCallsSameKeys(s1, window, w);
    SameCallsSameTrace(s1, window, w, q);
    assert q in Current(RExec(s1, window).value) <==> q in Current(RExec(s1, w).value);
  }

  lemma SameIsRight(s: Race, q: Path, window: seq<RStep>)
    requires s.versions != [] && Remembers(Current(s), q)
    requires Overtaken(s, q, window) && ComesOutTheSame(s, q, window)
    ensures PutIsRight(s, q, window)
  {
    var s1 := RApply(s, StatReply(q)).value;
    PutIsRightIff(s, q, window);
    if q in Current(RExec(s1, window).value) { UnrestattedIsSource(s1, window, q); }
  }

  /** The overtaken lookup, exactly. After any run the daemon answers a lookup of `q`, the calls of
      `window` follow, and then the answer is remembered. It is right whatever the operations among
      those calls leave, if and only if none of them restats the entry that ends up at `q`: neither
      writes, truncates, creates or chmods it nor adds or removes a name in it; and that entry was at
      `q` all along, or was renamed to it with the same stat; or nothing is at `q` before and after. */
  lemma LatePutAgreesIff(t: Tree, start: int, run: seq<RStep>, q: Path, window: seq<RStep>)
    requires RExec(Mounted(t, start), run).Some?
    requires Remembers(Current(RExec(Mounted(t, start), run).value), q)
    requires Overtaken(RExec(Mounted(t, start), run).value, q, window)
    ensures var s := RExec(Mounted(t, start), run).value;
      (forall w | SameCalls(window, w) && Overtaken(s, q, w) :: PutIsRight(s, q, w)) <==>
      ComesOutTheSame(s, q, window)
  {
    var s := RExec(Mounted(t, start), run).value;
    HasVersions(Mounted(t, start), run);
    if ComesOutTheSame(s, q, window) {
      forall w | SameCalls(window, w) && Overtaken(s, q, w)
        ensures PutIsRight(s, q, w)
      {
        SameForEveryOutcome(s, q, window, w);
        SameIsRight(s, q, w);
      }
    } else {
      NotTheSameCanBeWrong(s, q, window);
    }
  }

  lemma NotTheSameCanBeWrong(s: Race, q: Path, window: seq<RStep>)
    requires s.versions != [] && Remembers(Current(s), q)
    requires Overtaken(s, q, window) && !ComesOutTheSame(s, q, window)
    ensures exists w :: SameCalls(window, w) && Overtaken(s, q, w) && !PutIsRight(s, q, w)
  {
    var s1 := RApply(s, StatReply(q)).value;
    if q in Current(s) && q in Current(RExec(s1, window).value) && Restatted(s1, window, q) {
      RestattedCanBeWrong(s, q, window);
    } else {
      ItselfIsWrong(s, q, window);
      assert SameCalls(window, window);
    }
  }

  lemma ItselfIsWrong(s: Race, q: Path, window: seq<RStep>)
    requires s.versions != [] && Remembers(Current(s), q)
    requires Overtaken(s, q, window) && !ComesOutTheSame(s, q, window)
    requires var s1 := RApply(s, StatReply(q)).value;
      !(q in Current(s) && q in Current(RExec(s1, window).value) && Restatted(s1, window, q))
    ensures !PutIsRight(s, q, window)
  {
    var s1 := RApply(s, StatReply(q)).value;
    PutIsRightIff(s, q, window);
    if q in Current(RExec(s1, window).value) && q in Current(s) { UnrestattedIsSource(s1, window, q); }
  }

  lemma {:induction false} HasVersions(s: Race, run: seq<RStep>)
    requires s.versions != [] && RExec(s, run).Some?
    ensures RExec(s, run).value.versions != []
    decreases |run|
  {
    if run != [] { HasVersions(s, run[..|run| - 1]); }
  }

  /** Such a stale entry: the reply of a lookup is overtaken by a chmod and its invalidation. */
  lemma OvertakenByAChmod(d: Stat, f: Stat, mode: int, start: int)
    requires d.isDir && mode != f.mode
    ensures var t: Tree := map[[] := d, ["a"] := f];
      var t': Tree := map[[] := d, ["a"] := f.(mode := mode)];
      var run := [StatReply(["a"]), Mutated(OnPath(Chmod, ["a"]), t'), Invalidates(0), CachePut(0)];
      && RExec(Mounted(t, start), run).Some?
      && var s := RExec(Mounted(t, start), run).value;
      s.owed == [] && !AgreesAt(s.cache, Current(s), ["a"])
  {
    var t: Tree := map[[] := d, ["a"] := f];
    var t': Tree := map[[] := d, ["a"] := f.(mode := mode)];
    var run := [StatReply(["a"]), Mutated(OnPath(Chmod, ["a"]), t'), Invalidates(0), CachePut(0)];
    var l := Lookup(["a"], Some(f), 0, false);
    var s1 := Mounted(t, start).(lookups := map[0 := l], next := 1);
    var s2 := s1.(versions := [t, t'], owed := [["a"]]);
    var s3 := s2.(owed := [], lookups := map[0 := l.(late := true)]);
    assert RApply(Mounted(t, start), run[0]) == Some(s1);
    assert Effect(OnPath(Chmod, ["a"]), t, t');
    assert RApply(s1, run[1]) == Some(s2) by { assert [] + [["a"]] == [["a"]] && [t] + [t'] == [t, t']; }
    assert RApply(s2, run[2]) == Some(s3) by {
      assert Invalidate(map[], ["a"]) == map[] && s2.owed[..0] + s2.owed[1..] == [];
      assert RApply(s2, run[2]).value.lookups == s3.lookups;
    }
    assert run[..3][..2] == run[..2] && run[..2][..1] == run[..1] && run[..1][..0] == [];
    assert RExec(Mounted(t, start), run[..1]) == Some(s1);
    assert RExec(Mounted(t, start), run[..2]) == Some(s2);
    assert RExec(Mounted(t, start), run[..3]) == Some(s3);
    var s4 := RApply(s3, CachePut(0)).value;
    assert RExec(Mounted(t, start), run) == Some(s4);
    assert s4.cache[Rel(["a"])].found == Some(f) && Current(s4) == t';
  }
}
