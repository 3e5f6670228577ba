/** The FUSE file system's stat cache against the tree the daemon serves.

    A path is its list of segments, the root being []. `Getattr` looks up the cleaned relative path,
    while `InvalidateCache` drops `filepath.Dir` of it, which for a top-level path is "." and not the
    key "" of the root: hence the two kinds of key. */
module StatCache {
  import opened Wrappers

  type Path = seq<string>

  datatype Stat = Stat(size: int, mode: int, mtime: int, isDir: bool)

  type Tree = map<Path, Stat>

  datatype Key = Rel(path: Path) | Dot

  /** `found.None?` is the remembered "does not exist". */
  datatype Entry = Entry(found: Option<Stat>, expiresAt: int)

  type Cache = map<Key, Entry>

  function Parent(p: Path): Path
    requires p != []
  {
    p[..|p| - 1]
  }

  function DirKey(p: Path): Key { if |p| <= 1 then Dot else Rel(Parent(p)) }

  predicate Below(q: Path, p: Path) { |p| < |q| && q[..|p|] == p }

  // ---- the daemon's side ----

  datatype Errno = ENOENT | ENOTDIR | EOTHER

  datatype Attr = Ok(stat: Stat) | Err(errno: Errno)

  predicate UnderFile(t: Tree, p: Path) {
    exists n | 0 <= n < |p| :: p[..n] in t && !t[p[..n]].isDir
  }

  /** A stat RPC that reaches the tree. */
  function StatRpc(t: Tree, p: Path): Attr {
    if p in t then Ok(t[p]) else if UnderFile(t, p) then Err(ENOTDIR) else Err(ENOENT)
  }

  datatype Kind = Write | Truncate | Create | Mkdir | Unlink | Rmdir | Chmod

  datatype Op = OnPath(kind: Kind, p: Path) | Rename(from: Path, to: Path)

  ghost predicate SameExcept(t: Tree, t': Tree, touched: set<Path>) {
    && (forall q <- t :: q in touched || (q in t' && t'[q] == t[q]))
    && (forall q <- t' :: q in touched || q in t)
  }

  /** The operation adds a name to the directory of `p` or removes one. */
  predicate ChangesNames(kind: Kind, p: Path, t: Tree) {
    match kind
    case Write | Truncate => p !in t
    case Chmod => false
    case _ => true
  }

  /** What a successful single-path RPC may change: the entry itself, and the stat of its directory
      when a name is added or removed. Of the root, only the mode can be set. */
  ghost predicate PathEffect(kind: Kind, p: Path, t: Tree, t': Tree) {
    if kind.Chmod? then
      p in t && p in t' && SameExcept(t, t', {p}) && t'[p] == t[p].(mode := t'[p].mode)
    else
      && p != []
      && SameExcept(t, t', if ChangesNames(kind, p, t) then {p, Parent(p)} else {p})
      && KeepsDir(t, t', p)
      && match kind
         case Write | Truncate => p in t'
         case Create | Mkdir => p !in t && p in t'
         case _ => p in t && p !in t' && Leaf(t, p)
  }

  predicate Leaf(t: Tree, p: Path) { forall q <- t :: !Below(q, p) }

  predicate KeepsDir(t: Tree, t': Tree, p: Path)
    requires p != []
  {
    Parent(p) in t && Parent(p) in t' && t[Parent(p)].isDir && t'[Parent(p)].isDir
  }

  /** A successful rename moves `from` and everything below it to `to`, below which nothing was. */
  ghost predicate RenameEffect(from: Path, to: Path, t: Tree, t': Tree) {
    && from in t && from != [] && to != []
    && (from == to ==> t' == t)
    && (from != to ==>
          && !Below(to, from) && !Below(from, to) && Leaf(t, to)
          && to in t' && t'[to] == t[from] && from !in t'
          && (forall q | Below(q, to) :: q in t' <==> from + q[|to|..] in t)
          && (forall q | Below(q, to) && q in t' :: t'[q] == t[from + q[|to|..]])
          && (forall q <- t' :: !Below(q, from))
          && (forall q <- t :: Untouched(q, from, to) ==> q in t' && t'[q] == t[q])
          && (forall q <- t' :: Untouched(q, from, to) ==> q in t)
          && KeepsDir(t, t', from) && KeepsDir(t, t', to))
  }

  predicate Untouched(q: Path, from: Path, to: Path)
    requires from != [] && to != []
  {
    q != from && q != to && !Below(q, from) && !Below(q, to) && q != Parent(from) && q != Parent(to)
  }

  ghost predicate Effect(op: Op, t: Tree, t': Tree) {
    match op
    case OnPath(kind, p) => PathEffect(kind, p, t, t')
    case Rename(from, to) => RenameEffect(from, to, t, t')
  }

  // ---- the cache ----

  const TTL := 1500

  function Invalidate(c: Cache, p: Path): Cache { c - {Rel(p), DirKey(p)} }

  function InvalidateFor(c: Cache, op: Op): Cache {
    match op
    case OnPath(_, p) => Invalidate(c, p)
    case Rename(from, to) => Invalidate(Invalidate(c, from), to)
  }

  predicate Fresh(c: Cache, p: Path, now: int) { Rel(p) in c && now <= c[Rel(p)].expiresAt }

  function Remembered(e: Entry): Attr {
    match e.found
    case Some(st) => Ok(st)
    case None => Err(ENOENT)
  }

  /** `Getattr`: the answer and the new cache. `failure` is a transport or permission error of the
      stat RPC, which is never cached; of the RPC errors only not-found is. */
  function Getattr(c: Cache, t: Tree, p: Path, now: int, failure: bool): (Attr, Cache) {
    if Fresh(c, p, now) then (Remembered(c[Rel(p)]), c)
    else
      var c0 := c - {Rel(p)};
      if failure then (Err(EOTHER), c0)
      else match StatRpc(t, p)
        case Ok(st) => (Ok(st), c0[Rel(p) := Entry(Some(st), now + TTL)])
        case Err(e) => (Err(e), if e.ENOENT? then c0[Rel(p) := Entry(None, now + TTL)] else c0)
  }

  class FuseFS {
    var cache: Cache
    var tree: Tree

    constructor (tree: Tree)
      ensures cache == map[] && this.tree == tree
    {
      this.cache := map[];
      this.tree := tree;
    }

    method CacheGet(k: Key, now: int) returns (e: Option<Entry>)
      modifies this`cache
      ensures e == if k in old(cache) && now <= old(cache)[k].expiresAt then Some(old(cache)[k]) else None
      ensures cache == if e.Some? then old(cache) else old(cache) - {k}
    {
      if k !in cache {
        assert cache - {k} == cache;
        return None;
      }
      if now > cache[k].expiresAt {
        cache := cache - {k};
        return None;
      }
      e := Some(cache[k]);
    }

    method InvalidateCache(p: Path)
      modifies this`cache
      ensures cache == Invalidate(old(cache), p)
    {
      cache := cache - {Rel(p)};
      cache := cache - {DirKey(p)};
    }

    method GetAttr(p: Path, now: int, failure: bool) returns (a: Attr)
      modifies this`cache
      ensures (a, cache) == Getattr(old(cache), tree, p, now, failure)
    {
      var e := CacheGet(Rel(p), now);
      if e.Some? {
        match e.value.found {
          case None => return Err(ENOENT);
          case Some(st) => return Ok(st);
        }
      }
      if failure { return Err(EOTHER); }
      a := StatRpc(tree, p);
      if a.Err? && a.errno.ENOENT? {
        cache := cache[Rel(p) := Entry(None, now + TTL)];
      } else if a.Ok? {
        cache := cache[Rel(p) := Entry(Some(a.stat), now + TTL)];
      }
    }

    /** Write, Truncate, Create, Mkdir, Unlink, Rmdir, Chmod and Rename: the RPC, and only when it
        succeeded the invalidation of the paths it names. `after` is the tree it leaves. */
    method Mutate(op: Op, after: Option<Tree>)
      requires after.Some? ==> Effect(op, tree, after.value)
      modifies this
      ensures after.None? ==> cache == old(cache) && tree == old(tree)
      ensures after.Some? ==> cache == InvalidateFor(old(cache), op) && tree == after.value
    {
      if after.None? { return; }
      tree := after.value;
      match op {
        case OnPath(_, p) => InvalidateCache(p);
        case Rename(from, to) =>
          InvalidateCache(from);
          InvalidateCache(to);
      }
    }
  }

  // ---- what a lookup answers and remembers ----

  /** What the daemon says of a path: its stat, that it lies under a file, or that it is not there. */
  lemma StatSays(t: Tree, p: Path)
    ensures p in t ==> StatRpc(t, p) == Ok(t[p])
    ensures p !in t && (exists n | 0 <= n < |p| :: p[..n] in t && !t[p[..n]].isDir) ==> StatRpc(t, p) == Err(ENOTDIR)
    ensures p !in t && (forall n | 0 <= n < |p| :: p[..n] in t ==> t[p[..n]].isDir) ==> StatRpc(t, p) == Err(ENOENT)
  {
  }

  /** What is not remembered is asked of the daemon, and a failure of that call is reported and not
      remembered. A stat or a not-found is then repeated for a second and a half, the last instant
      included, whatever becomes of the tree and of the connection; after that, and after any other
      error, the daemon is asked again. */
  lemma RemembersForTheTTL(c: Cache, t: Tree, p: Path, now: int, failure: bool, later: int, t': Tree, failure': bool)
    requires !Fresh(c, p, now) && now <= later
    ensures var (a, c') := Getattr(c, t, p, now, failure);
      && a == (if failure then Err(EOTHER) else StatRpc(t, p))
      && Getattr(c', t', p, later, failure').0 == (
           if !failure && a != Err(ENOTDIR) && later <= now + 1500 then a
           else if failure' then Err(EOTHER)
           else StatRpc(t', p))
      && forall k :: k != Rel(p) ==> (k in c' <==> k in c) && (k in c ==> c'[k] == c[k])
  {
  }

  // ---- agreement ----

  predicate AgreesAt(c: Cache, t: Tree, q: Path) {
    Rel(q) in c ==> c[Rel(q)].found == (if q in t then Some(t[q]) else None)
  }

  /** Every entry but the root's says what the daemon would say now, expired or not. */
  ghost predicate Agrees(c: Cache, t: Tree) { forall q: Path :: q != [] ==> AgreesAt(c, t, q) }

  datatype Step = Look(p: Path, now: int, failure: bool) | Change(op: Op, after: Option<Tree>)

  datatype State = State(cache: Cache, tree: Tree)

  ghost function Apply(s: State, st: Step): Option<State> {
    match st
    case Look(p, now, failure) => Some(s.(cache := Getattr(s.cache, s.tree, p, now, failure).1))
    case Change(op, after) =>
      if after.None? then Some(s)
      else if Effect(op, s.tree, after.value) then Some(State(InvalidateFor(s.cache, op), after.value))
      else None
  }

  ghost function Exec(s: State, run: seq<Step>): Option<State>
    decreases |run|
  {
    if run == [] then Some(s)
    else match Apply(s, run[0])
      case Some(s') => Exec(s', run[1..])
      case None => None
  }

  lemma LookKeepsAgreement(c: Cache, t: Tree, p: Path, now: int, failure: bool)
    requires Agrees(c, t)
    ensures Agrees(Getattr(c, t, p, now, failure).1, t)
  {
    forall q: Path | q != []
      ensures AgreesAt(Getattr(c, t, p, now, failure).1, t, q)
    {
      assert AgreesAt(c, t, q);
    }
  }

  lemma PathOpKeepsAgreement(c: Cache, t: Tree, kind: Kind, p: Path, t': Tree)
    requires Agrees(c, t) && PathEffect(kind, p, t, t')
    ensures Agrees(Invalidate(c, p), t')
  {
    forall q: Path | q != []
      ensures AgreesAt(Invalidate(c, p), t', q)
    {
      assert AgreesAt(c, t, q);
      if q != p && (p == [] || q != Parent(p)) {
        assert q in t <==> q in t';
      }
    }
  }

  /** Below `from`, where something was, or below `to`, where something arrives. */
  predicate Carried(t: Tree, from: Path, to: Path, q: Path) {
    (Below(q, from) && q in t) || (Below(q, to) && from + q[|to|..] in t)
  }

  /** A path with an unexpired entry that a rename carries off or brings in. This can be read off the
      cache and the tree before the rename. */
  ghost predicate HasStaleBelow(c: Cache, t: Tree, from: Path, to: Path, now: int) {
    exists q: Path :: Fresh(c, q, now) && Carried(t, from, to, q)
  }

  /** Every answer the cache would give at `now`, but for the root, is what the daemon would say. */
  ghost predicate AnswersAgree(c: Cache, t: Tree, now: int) {
    forall q: Path :: q != [] && Fresh(c, q, now) ==> AgreesAt(c, t, q)
  }

  lemma AgreesAfterRenameAt(c: Cache, t: Tree, from: Path, to: Path, t': Tree, q: Path)
    requires AgreesAt(c, t, q) && RenameEffect(from, to, t, t') && from != to && q != []
    requires Rel(q) in InvalidateFor(c, Rename(from, to))
    ensures AgreesAt(InvalidateFor(c, Rename(from, to)), t', q) <==> !Carried(t, from, to, q)
  {
    assert q != from && q != to && q != Parent(from) && q != Parent(to);
    if Below(q, from) && Below(q, to) { Nested(q, from, to); }
    if Below(q, from) {
      assert q !in t';
    } else if Below(q, to) {
      assert q !in t;
    } else {
      assert q in t <==> q in t';
    }
  }

  /** A rename keeps the cache's answers in agreement exactly when it carries nothing that has an
      unexpired entry: `InvalidateCache` drops the two paths and their parents, but no descendant. */
  lemma RenameAgreesIff(c: Cache, t: Tree, from: Path, to: Path, t': Tree, now: int)
    requires AnswersAgree(c, t, now) && RenameEffect(from, to, t, t') && from != to
    ensures AnswersAgree(InvalidateFor(c, Rename(from, to)), t', now) <==> !HasStaleBelow(c, t, from, to, now)
  {
    var c' := InvalidateFor(c, Rename(from, to));
    if HasStaleBelow(c, t, from, to, now) {
      var q :| Fresh(c, q, now) && Carried(t, from, to, q);
      assert q != from && q != to && q != [];
      assert |Parent(from)| < |from| && |Parent(to)| < |to|;
      NotAParent(q, from, to);
      assert Fresh(c', q, now);
      AgreesAfterRenameAt(c, t, from, to, t', q);
    } else {
      forall q: Path | q != [] && Fresh(c', q, now)
        ensures AgreesAt(c', t', q)
      {
        assert Fresh(c, q, now);
        AgreesAfterRenameAt(c, t, from, to, t', q);
      }
    }
  }

  /** Renaming a directory whose child has been looked up is such a case. */
  lemma RenamedDirectoryGoesStale(d: Stat, f: Stat)
    requires d.isDir && !f.isDir
    ensures var t: Tree := map[[] := d, ["d"] := d, ["d", "f"] := f];
      var t': Tree := map[[] := d, ["e"] := d, ["e", "f"] := f];
      var c := Getattr(map[], t, ["d", "f"], 0, false).1;
      && RenameEffect(["d"], ["e"], t, t') && Agrees(c, t)
      && forall now | now <= TTL :: !AnswersAgree(InvalidateFor(c, Rename(["d"], ["e"])), t', now)
  {
    var t: Tree := map[[] := d, ["d"] := d, ["d", "f"] := f];
    var t': Tree := map[[] := d, ["e"] := d, ["e", "f"] := f];
    var c := Getattr(map[], t, ["d", "f"], 0, false).1;
    assert Parent(["d"]) == [] && Parent(["e"]) == [];
    assert Below(["d", "f"], ["d"]) && Below(["e", "f"], ["e"]);
    forall q | Below(q, ["e"])
      ensures (q in t' <==> ["d"] + q[1..] in t) && (q in t' ==> t'[q] == t[["d"] + q[1..]])
    {
      assert q == ["e"] + q[1..];
      assert ["d", "f"] == ["d"] + ["f"] && ["e", "f"] == ["e"] + ["f"];
      assert ["d"] + q[1..] in t <==> q[1..] == ["f"];
    }
    assert c == map[Rel(["d", "f"]) := Entry(Some(f), TTL)];
    assert Agrees(c, t);
    assert RenameEffect(["d"], ["e"], t, t');
    forall now | now <= TTL
      ensures !AnswersAgree(InvalidateFor(c, Rename(["d"], ["e"])), t', now)
    {
      assert Fresh(c, ["d", "f"], now) && Carried(t, ["d"], ["e"], ["d", "f"]);
      RenameAgreesIff(c, t, ["d"], ["e"], t', now);
    }
  }

  lemma NotAParent(q: Path, from: Path, to: Path)
    requires from != [] && to != [] && !Below(to, from) && !Below(from, to)
    requires Below(q, from) || Below(q, to)
    ensures q != Parent(from) && q != Parent(to)
  {
    if q == Parent(to) && Below(q, from) { BelowParent(to, from); }
    if q == Parent(from) && Below(q, to) { BelowParent(from, to); }
  }

  lemma BelowParent(p: Path, r: Path)
    requires p != [] && Below(Parent(p), r)
    ensures Below(p, r)
  {
    assert p[..|r|] == Parent(p)[..|r|];
  }

  /** Two paths above a common one are comparable. */
  lemma Nested(q: Path, p: Path, r: Path)
    requires Below(q, p) && Below(q, r)
    ensures p == r || Below(p, r) || Below(r, p)
  {
    if |p| <= |r| {
      assert r[..|p|] == q[..|p|];
    } else {
      assert p[..|r|] == q[..|r|];
    }
  }

  /** Renames in the run only move entries with nothing below them. */
  ghost predicate MovesLeaf(s: State, st: Step) { st.Change? && st.op.Rename? ==> Leaf(s.tree, st.op.from) }

  ghost predicate MovesOnlyLeaves(s: State, run: seq<Step>)
    decreases |run|
  {
    run == [] ||
    (MovesLeaf(s, run[0]) && match Apply(s, run[0])
                             case Some(s') => MovesOnlyLeaves(s', run[1..])
                             case None => true)
  }

  lemma LeafRenameKeepsAgreement(c: Cache, t: Tree, from: Path, to: Path, t': Tree)
    requires Agrees(c, t) && RenameEffect(from, to, t, t') && from != to && Leaf(t, from)
    ensures Agrees(InvalidateFor(c, Rename(from, to)), t')
  {
    forall q: Path | q != []
      ensures AgreesAt(InvalidateFor(c, Rename(from, to)), t', q)
    {
      assert AgreesAt(c, t, q);
      assert Below(q, to) ==> Below(from + q[|to|..], from);
      if Rel(q) in InvalidateFor(c, Rename(from, to)) { AgreesAfterRenameAt(c, t, from, to, t', q); }
    }
  }

  lemma StepKeepsAgreement(s: State, st: Step)
    requires Agrees(s.cache, s.tree) && MovesLeaf(s, st) && Apply(s, st).Some?
    ensures Agrees(Apply(s, st).value.cache, Apply(s, st).value.tree)
  {
    match st {
      case Look(p, now, failure) => LookKeepsAgreement(s.cache, s.tree, p, now, failure);
      case Change(OnPath(kind, p), Some(t')) => PathOpKeepsAgreement(s.cache, s.tree, kind, p, t');
      case Change(Rename(from, to), Some(t')) =>
        if from != to {
          LeafRenameKeepsAgreement(s.cache, s.tree, from, to, t');
        } else {
          assert forall q: Path | q != [] && AgreesAt(s.cache, t', q) :: AgreesAt(InvalidateFor(s.cache, st.op), t', q);
        }
      case _ =>
    }
  }

  lemma {:induction false} RunKeepsAgreement(s: State, run: seq<Step>)
    requires Agrees(s.cache, s.tree) && Exec(s, run).Some? && MovesOnlyLeaves(s, run)
    ensures Agrees(Exec(s, run).value.cache, Exec(s, run).value.tree)
    decreases |run|
  {
    if run != [] {
      StepKeepsAgreement(s, run[0]);
      RunKeepsAgreement(Apply(s, run[0]).value, run[1..]);
    }
  }

  /** After any run from an empty cache, a `Getattr` answered from the cache reports the existence
      and the stat a stat RPC would report at that moment. The error may differ in one way only: a
      remembered not-found stays so when an ancestor has since become a file. */
  lemma CachedGetattrIsCurrent(t0: Tree, run: seq<Step>, p: Path, now: int)
    requires p != [] && Exec(State(map[], t0), run).Some? && MovesOnlyLeaves(State(map[], t0), run)
    ensures var s := Exec(State(map[], t0), run).value;
      var a := Getattr(s.cache, s.tree, p, now, false).0;
      && a.Ok? == StatRpc(s.tree, p).Ok?
      && (a.Ok? ==> a == StatRpc(s.tree, p))
      && (a != StatRpc(s.tree, p) ==> UnderFile(s.tree, p) && a == Err(ENOENT))
  {
    RunKeepsAgreement(State(map[], t0), run);
    var s := Exec(State(map[], t0), run).value;
    assert AgreesAt(s.cache, s.tree, p);
  }

  // ---- what an operation does to one entry ----

  /** The operation can leave `q` with another stat than that of the entry it finds or brings there. */
  predicate Restats(t: Tree, op: Op, q: Path) {
    match op
    case OnPath(kind, p) => q == p || (p != [] && q == Parent(p) && ChangesNames(kind, p, t))
    case Rename(from, to) =>
      from != [] && to != [] && from != to && (q == Parent(from) || q == Parent(to))
  }

  /** Where the entry that an operation leaves at `q` was before. */
  function CameFrom(op: Op, q: Path): Path {
    if op.Rename? && op.from != op.to && (q == op.to || Below(q, op.to)) then op.from + q[|op.to|..] else q
  }

  lemma UnrestatedIsCarried(t: Tree, op: Op, t': Tree, q: Path)
    requires Effect(op, t, t') && q in t' && !Restats(t, op, q)
    ensures CameFrom(op, q) in t && t'[q] == t[CameFrom(op, q)]
  {
    match op
    case OnPath(kind, p) =>
    case Rename(from, to) =>
      if from != to && q == to { assert from + q[|to|..] == from; }
  }

  /** Chmod decides about the mode, everything else about the modification time. */
  predicate Variant(op: Op, st: Stat, other: Stat) {
    if op.OnPath? && op.kind.Chmod? then other == st.(mode := other.mode) else other == st.(mtime := other.mtime)
  }

  function Other(op: Op, st: Stat, than: Stat): (other: Stat)
    ensures Variant(op, st, other) && other != than
  {
    if op.OnPath? && op.kind.Chmod? then st.(mode := than.mode + 1) else st.(mtime := than.mtime + 1)
  }

  /** An operation that restats an entry can leave it with any such stat. */
  lemma RestatedCanDiffer(t: Tree, op: Op, t': Tree, q: Path, st: Stat)
    requires Effect(op, t, t') && q in t' && Restats(t, op, q) && Variant(op, t'[q], st)
    ensures Effect(op, t, t'[q := st])
  {
    match op
    case OnPath(kind, p) =>
    case Rename(from, to) => RenameCanRestat(t, from, to, t', q, st);
  }

  lemma RenameCanRestat(t: Tree, from: Path, to: Path, t': Tree, q: Path, st: Stat)
    requires RenameEffect(from, to, t, t') && from != to && (q == Parent(from) || q == Parent(to))
    requires q in t' && st.isDir == t'[q].isDir
    ensures RenameEffect(from, to, t, t'[q := st])
  {
    NotMoved(from, to, q);
    var t1 := t'[q := st];
    assert forall x :: x in t1 <==> x in t';
    assert forall x | x in t' && x != q :: t1[x] == t'[x];
  }

  lemma NotMoved(from: Path, to: Path, q: Path)
    requires from != [] && to != [] && !Below(to, from) && !Below(from, to)
    requires q == Parent(from) || q == Parent(to)
    ensures q != from && q != to && !Below(q, from) && !Below(q, to)
  {
    assert |q| < |from| || |q| < |to|;
    if Below(q, from) || Below(q, to) { NotAParent(q, from, to); }
    assert Below(from, Parent(from)) && Below(to, Parent(to));
  }

  // ---- the root ----

  /** The operation adds or removes a top-level name, and with that may change the root's stat. */
  predicate TouchesRoot(t: Tree, op: Op) {
    match op
    case OnPath(kind, p) => |p| == 1 && ChangesNames(kind, p, t)
    case Rename(from, to) => from != to && (|from| == 1 || |to| == 1)
  }

  /** No other operation changes the root, except a chmod of the root itself. */
  lemma RootIsRestated(t: Tree, op: Op, t': Tree)
    requires Effect(op, t, t')
    ensures Restats(t, op, []) <==> TouchesRoot(t, op) || (op.OnPath? && op.p == [])
    ensures CameFrom(op, []) == []
    ensures TouchesRoot(t, op) ==> [] in t'
    ensures [] in t <==> [] in t'
  {
    match op
    case OnPath(kind, p) => assert p != [] ==> (Parent(p) == [] <==> |p| == 1);
    case Rename(from, to) =>
      assert (Parent(from) == [] <==> |from| == 1) && (Parent(to) == [] <==> |to| == 1);
      assert from != to && |from| > 1 && |to| > 1 ==> Untouched([], from, to);
  }

  /** The root is different: whatever an operation does, a remembered root stays right exactly when
      it is not remembered at all or the operation adds and removes no top-level name. The key "."
      is dropped for such an operation, and not the root's own, which only its own chmod drops. */
  lemma RootAgreesIff(c: Cache, t: Tree, op: Op, after: Tree)
    requires AgreesAt(c, t, []) && Effect(op, t, after)
    ensures (forall t' | Effect(op, t, t') :: AgreesAt(InvalidateFor(c, op), t', [])) <==>
            !(Rel([]) in c && TouchesRoot(t, op))
  {
    var c' := InvalidateFor(c, op);
    if Rel([]) in c && TouchesRoot(t, op) {
      RootKeyIsKept(c, t, op, after);
      RootIsRestated(t, op, after);
      var st := Other(op, after[[]], c[Rel([])].found.value);
      RestatedCanDiffer(t, op, after, [], st);
      assert Effect(op, t, after[[] := st]) && !AgreesAt(c', after[[] := st], []);
    } else {
      forall t' | Effect(op, t, t')
        ensures AgreesAt(c', t', [])
      {
        RootIsRestated(t, op, t');
        if [] in t' && !Restats(t, op, []) { UnrestatedIsCarried(t, op, t', []); }
      }
    }
  }

  /** No other operation drops the root's key: the parent of a deeper path is not the root. */
  lemma RootKeyIsKept(c: Cache, t: Tree, op: Op, t': Tree)
    requires Effect(op, t, t') && TouchesRoot(t, op) && Rel([]) in c
    ensures Rel([]) in InvalidateFor(c, op)
  {
    match op
    case OnPath(_, p) =>
    case Rename(from, to) => assert (|from| > 1 ==> Parent(from) != []) && (|to| > 1 ==> Parent(to) != []);
  }

  /** A top-level mkdir after a look at the root is such a case. */
  lemma RootGoesStale(was: Stat, now: Stat, f: Stat)
    requires was != now && was.isDir && now.isDir
    ensures var t, t' := map[[] := was], map[[] := now, ["a"] := f];
      var c := Getattr(map[], t, [], 0, false).1;
      && PathEffect(Mkdir, ["a"], t, t')
      && AgreesAt(c, t, []) && !AgreesAt(Invalidate(c, ["a"]), t', [])
  {
    assert Parent(["a"]) == [];
  }

  /** No operation of the run adds or removes a top-level name while the root is remembered. */
  ghost predicate SparesTheRoot(s: State, run: seq<Step>)
    decreases |run|
  {
    run == [] ||
    ((run[0].Change? && run[0].after.Some? ==> !(Rel([]) in s.cache && TouchesRoot(s.tree, run[0].op)))
     && match Apply(s, run[0])
        case Some(s') => SparesTheRoot(s', run[1..])
        case None => true)
  }

  /** Over such a run the root's entry stays right too. */
  lemma {:induction false} RootStaysCurrent(s: State, run: seq<Step>)
    requires AgreesAt(s.cache, s.tree, []) && Exec(s, run).Some? && SparesTheRoot(s, run)
    ensures AgreesAt(Exec(s, run).value.cache, Exec(s, run).value.tree, [])
    decreases |run|
  {
    if run != [] {
      var s' := Apply(s, run[0]).value;
      match run[0] {
        case Change(op, Some(t')) => RootAgreesIff(s.cache, s.tree, op, t');
        case _ =>
      }
      RootStaysCurrent(s', run[1..]);
    }
  }
}
