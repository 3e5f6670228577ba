/** The token table and the authentication cache in front of it.

    The argon2 hash is the parameter `hash`; the random parts of a new token (its id, prefix and
    secret) are parameters too, and a collision is the constraint violation SQLite reports. */
module TokenStore {
  import opened Wrappers
  import Strings
  import Scopes

  type Hash = string -> string

  datatype Token = Token(
    id: string, name: string, prefix: string, scopes: seq<string>,
    createdAt: int, lastUsedAt: Option<int>, expiresAt: Option<int>,
    rpm: int, tpd: int, debugCapture: bool, verbosity: string, principal: string)

  datatype Row = Row(hash: string, token: Token)

  /** The rows by primary key. */
  type Table = map<string, Row>

  datatype CacheEntry = CacheEntry(hash: string, token: Token, expiresAt: int)

  type Cache = map<string, CacheEntry>

  const CACHE_TTL := 120
  const PREFIX_LEN := 8
  const SECRET_LEN := 24

  // ---- bearers ----

  /** Everything before the first '_' and everything after it. */
  function CutAtUnderscore(s: string): Option<(string, string)> {
    if s == "" then None
    else if s[0] == '_' then Some(("", s[1..]))
    else match CutAtUnderscore(s[1..])
      case Some((a, b)) => Some(([s[0]] + a, b))
      case None => None
  }

  function ParseBearer(bearer: string): Option<(string, string)> {
    if !("ccp_" <= bearer) then None
    else match CutAtUnderscore(bearer[4..])
      case Some((p, s)) => if |p| == PREFIX_LEN && |s| == SECRET_LEN then Some((p, s)) else None
      case None => None
  }

  function MakeBearer(prefix: string, secret: string): string { "ccp_" + prefix + "_" + secret }

  lemma {:induction false} CutIs(s: string)
    ensures match CutAtUnderscore(s)
      case Some((a, b)) => s == a + "_" + b && Strings.Lacks(a, '_')
      case None => Strings.Lacks(s, '_')
  {
    if s != "" && s[0] != '_' {
      CutIs(s[1..]);
      assert s == [s[0]] + s[1..];
      match CutAtUnderscore(s[1..]) {
        case Some((a, b)) => Regroup([s[0]], a, b);
        case None =>
      }
    }
  }

  lemma Regroup(c: string, a: string, b: string)
    ensures c + (a + "_" + b) == (c + a) + "_" + b
  {
  }

  lemma {:induction false} CutFirst(a: string, b: string)
    requires Strings.Lacks(a, '_')
    ensures CutAtUnderscore(a + "_" + b) == Some((a, b))
  {
    if a == "" {
      assert (a + "_" + b)[1..] == b;
    } else {
      assert (a + "_" + b)[1..] == a[1..] + "_" + b;
      CutFirst(a[1..], b);
      assert [a[0]] + a[1..] == a;
    }
  }

  /** Parsing accepts exactly the strings `generateBearer` shapes, and takes them apart again. */
  lemma BearerRoundTrip(bearer: string, prefix: string, secret: string)
    ensures ParseBearer(bearer) == Some((prefix, secret)) <==>
            && bearer == "ccp_" + prefix + "_" + secret
            && |prefix| == 8 && |secret| == 24 && '_' !in prefix
    ensures MakeBearer(prefix, secret) == "ccp_" + prefix + "_" + secret
  {
    if "ccp_" <= bearer {
      CutIs(bearer[4..]);
      assert bearer == "ccp_" + bearer[4..];
      if ParseBearer(bearer) == Some((prefix, secret)) {
        assert "ccp_" + (prefix + "_" + secret) == MakeBearer(prefix, secret);
      }
    }
    if bearer == MakeBearer(prefix, secret) && Strings.Lacks(prefix, '_') {
      assert bearer[4..] == prefix + "_" + secret;
      CutFirst(prefix, secret);
    }
  }

  // ---- plain lookup ----

  predicate Expired(t: Token, now: int) { t.expiresAt.Some? && t.expiresAt.value <= now }

  predicate Unused(t: Table, prefix: string) { forall id <- t :: t[id].token.prefix != prefix }

  /** The constraints of the schema: the primary key, and `prefix UNIQUE`. */
  ghost predicate TableSound(t: Table) {
    && (forall id <- t :: t[id].token.id == id)
    && (forall i, j :: i in t && j in t && t[i].token.prefix == t[j].token.prefix ==> i == j)
  }

  ghost predicate IsRow(t: Table, prefix: string, r: Row) {
    r.token.id in t && t[r.token.id] == r && r.token.prefix == prefix
  }

  /** `SELECT ... WHERE prefix = ?`. */
  ghost function ByPrefix(t: Table, prefix: string): Option<Row> {
    if exists id :: id in t && t[id].token.prefix == prefix then
      var id :| id in t && t[id].token.prefix == prefix; Some(t[id])
    else None
  }

  predicate Admits(hash: Hash, rowHash: string, t: Token, secret: string, now: int) {
    hash(secret) == rowHash && !Expired(t, now)
  }

  /** Authentication without a cache; `None` is the invalid-token error. */
  ghost function Plain(hash: Hash, t: Table, bearer: string, now: int): Option<Token> {
    match ParseBearer(bearer)
    case None => None
    case Some((prefix, secret)) =>
      match ByPrefix(t, prefix)
      case None => None
      case Some(r) => if Admits(hash, r.hash, r.token, secret, now) then Some(r.token) else None
  }

  function Anonymous(t: Token): Token { t.(lastUsedAt := None) }

  /** Two verdicts with the same token, apart from when it was last used. */
  predicate SameVerdict(a: Option<Token>, b: Option<Token>) {
    a.Some? == b.Some? && (a.Some? ==> Anonymous(a.value) == Anonymous(b.value))
  }

  // ---- the store ----

  datatype Store = Store(table: Table, cache: Cache)

  function Hit(s: Store, prefix: string, now: int): Option<CacheEntry> {
    if prefix in s.cache && now <= s.cache[prefix].expiresAt then Some(s.cache[prefix]) else None
  }

  ghost function Authenticate(hash: Hash, s: Store, bearer: string, now: int): (Option<Token>, Store) {
    match ParseBearer(bearer)
    case None => (None, s)
    case Some((prefix, secret)) =>
      match Hit(s, prefix, now)
      case Some(e) =>
        if hash(secret) != e.hash then (None, s)
        else if Expired(e.token, now) then (None, s.(cache := s.cache - {prefix}))
        else (Some(e.token), s)
      case None =>
        var s0 := s.(cache := s.cache - {prefix});
        match ByPrefix(s.table, prefix)
        case None => (None, s0)
        case Some(r) =>
          if !Admits(hash, r.hash, r.token, secret, now) then (None, s0)
          else (Some(r.token), s0.(cache := s0.cache[prefix := CacheEntry(r.hash, r.token, now + CACHE_TTL)]))
  }

  function Insert(s: Store, r: Row): Store {
    if r.token.id in s.table || !Unused(s.table, r.token.prefix) then s
    else s.(table := s.table[r.token.id := r])
  }

  function SetDebugCapture(s: Store, id: string, enabled: bool): Store {
    if id !in s.table then s
    else Store(s.table[id := s.table[id].(token := s.table[id].token.(debugCapture := enabled))], map[])
  }

  function Revoke(s: Store, id: string): Store {
    if id !in s.table then s else Store(s.table - {id}, map[])
  }

  function Rotate(s: Store, id: string, prefix: string, rowHash: string): Store {
    if id !in s.table || !Unused(s.table - {id}, prefix) then s
    else Store(s.table[id := Row(rowHash, s.table[id].token.(prefix := prefix))], map[])
  }

  function Touch(s: Store, id: string, now: int): Store {
    if id !in s.table then s
    else s.(table := s.table[id := s.table[id].(token := s.table[id].token.(lastUsedAt := Some(now)))])
  }

  datatype Failure = InvalidToken | UnknownToken | NameRequired | Constraint

  datatype Result<+T> = Success(value: T) | Error(failure: Failure)

  class TokenDb {
    const hash: Hash
    var table: Table
    var cache: Cache

    constructor (hash: Hash)
      ensures View() == Store(map[], map[]) && this.hash == hash
    {
      this.hash := hash;
      table, cache := map[], map[];
    }

    function View(): Store
      reads this
    {
      Store(table, cache)
    }

    method QueryByPrefix(prefix: string) returns (r: Option<Row>)
      requires TableSound(table)
      ensures r == ByPrefix(table, prefix)
    {
      var ids := set id | id in table && table[id].token.prefix == prefix;
      if ids == {} {
        assert forall id | id in table && table[id].token.prefix == prefix :: id in ids;
        return None;
      }
      var id :| id in ids;
      r := Some(table[id]);
    }

    method Auth(bearer: string, now: int) returns (tok: Option<Token>)
      requires TableSound(table)
      modifies this`cache
      ensures (tok, View()) == Authenticate(hash, old(View()), bearer, now)
    {
      var parsed := ParseBearer(bearer);
      if parsed.None? { return None; }
      var prefix, secret := parsed.value.0, parsed.value.1;
      if prefix in cache && now <= cache[prefix].expiresAt {
        var e := cache[prefix];
        if hash(secret) != e.hash { return None; }
        if Expired(e.token, now) {
          cache := cache - {prefix};
          return None;
        }
        return Some(e.token);
      }
      cache := cache - {prefix};
      var r := QueryByPrefix(prefix);
      if r.None? { return None; }
      if hash(secret) != r.value.hash { return None; }
      if Expired(r.value.token, now) { return None; }
      cache := cache[prefix := CacheEntry(r.value.hash, r.value.token, now + CACHE_TTL)];
      tok := Some(r.value.token);
    }

    /** `Create`: the scopes default to chat. The row holds them as a comma-separated column, so the
        token read back is the one returned whenever every scope is as `ParseScopes` yields it. */
    method Create(opts: Token, ttl: int, secret: string, now: int) returns (r: Result<(string, Token)>)
      modifies this`table
      ensures r.Success? ==>
        && r.value.0 == MakeBearer(opts.prefix, secret)
        && View() == Insert(old(View()), Row(hash(secret), Stored(r.value.1))) && opts.id !in old(table)
        && r.value.1 == opts.(scopes := if opts.scopes == [] then ["chat"] else opts.scopes, createdAt := now,
                              lastUsedAt := None, expiresAt := if ttl > 0 then Some(now + ttl) else None)
        && ((forall v <- opts.scopes :: Scopes.Clean(v)) ==> Stored(r.value.1) == r.value.1)
      ensures r.Error? ==> table == old(table)
      ensures r.Success? <==> Scopes.Trim(opts.name) != "" && opts.id !in old(table) && Unused(old(table), opts.prefix)
    {
      if Scopes.Trim(opts.name) == "" { return Error(NameRequired); }
      var scopes := opts.scopes;
      if scopes == [] { scopes := ["chat"]; }
      if opts.id in table || !Unused(table, opts.prefix) { return Error(Constraint); }
      var expires: Option<int> := None;
      if ttl > 0 { expires := Some(now + ttl); }
      var tok := opts.(scopes := scopes, createdAt := now, lastUsedAt := None, expiresAt := expires);
      table := table[opts.id := Row(hash(secret), tok.(scopes := Scopes.ParseScopesCSV(Strings.Join(scopes, ','))))];
      if forall v <- opts.scopes :: Scopes.Clean(v) {
        Scopes.ColumnRoundTrip(scopes);
      }
      r := Success((MakeBearer(opts.prefix, secret), tok));
    }

    method RevokeToken(id: string) returns (ok: bool)
      modifies this
      ensures ok == (id in old(table)) && View() == Revoke(old(View()), id)
    {
      ok := id in table;
      if ok {
        table := table - {id};
        cache := map[];
      }
    }

    method RotateToken(id: string, prefix: string, secret: string) returns (r: Result<(string, Token)>)
      modifies this
      ensures View() == Rotate(old(View()), id, prefix, hash(secret))
      ensures r.Success? <==> id in old(table) && Unused(old(table) - {id}, prefix)
      ensures r.Success? ==> r.value.0 == MakeBearer(prefix, secret) && r.value.1 == table[id].token
    {
      if id !in table { return Error(UnknownToken); }
      if !Unused(table - {id}, prefix) { return Error(Constraint); }
      var tok := table[id].token.(prefix := prefix);
      table := table[id := Row(hash(secret), tok)];
      cache := map[];
      r := Success((MakeBearer(prefix, secret), tok));
    }

    method SetDebug(id: string, enabled: bool) returns (ok: bool)
      modifies this
      ensures ok == (id in old(table)) && View() == SetDebugCapture(old(View()), id, enabled)
    {
      ok := id in table;
      if ok {
        table := table[id := table[id].(token := table[id].token.(debugCapture := enabled))];
        cache := map[];
      }
    }

    /** `SeedFromBearer`: only into an empty table, and only a bearer of the right shape. */
    method Seed(bearer: string, id: string, now: int) returns (count: Option<nat>)
      modifies this`table
      ensures count.None? <==> old(table) == map[] && bearer != "" && ParseBearer(bearer).None?
      ensures count.Some? ==> count.value == |table|
      ensures table != old(table) ==> old(table) == map[] && ParseBearer(bearer).Some?
      ensures old(table) == map[] && ParseBearer(bearer).Some? ==>
        var (p, s) := ParseBearer(bearer).value;
        View() == Insert(old(View()), Row(hash(s), SeedToken(id, p, now)))
    {
      if |table| > 0 || bearer == "" { return Some(|table|); }
      var parsed := ParseBearer(bearer);
      if parsed.None? { return None; }
      table := table[id := Row(hash(parsed.value.1), SeedToken(id, parsed.value.0, now))];
      count := Some(1);
    }
  }

  /** A token as its row gives it back. */
  function Stored(t: Token): Token { t.(scopes := Scopes.ParseScopesCSV(Strings.Join(t.scopes, ','))) }

  function SeedToken(id: string, prefix: string, now: int): Token {
    Token(id, "seed (CCPROXY_TOKEN)", prefix, ["chat"], now, None, None, 0, 0, false, "", "")
  }

  // ---- the cache agrees with the table ----

  /** The table still has this row, apart from when the token was last used. */
  predicate Stands(t: Table, r: Row) {
    && r.token.id in t
    && t[r.token.id].hash == r.hash
    && Anonymous(t[r.token.id].token) == Anonymous(r.token)
  }

  function RowOf(e: CacheEntry): Row { Row(e.hash, e.token) }

  predicate EntryOf(t: Table, prefix: string, e: CacheEntry) { Stands(t, RowOf(e)) && e.token.prefix == prefix }

  ghost predicate CacheSound(s: Store) { forall p <- s.cache :: EntryOf(s.table, p, s.cache[p]) }

  ghost predicate Inv(s: Store) { TableSound(s.table) && CacheSound(s) }

  lemma ByPrefixIs(t: Table, prefix: string, id: string)
    requires TableSound(t) && id in t && t[id].token.prefix == prefix
    ensures ByPrefix(t, prefix) == Some(t[id])
  {
  }

  lemma HitIsPlain(hash: Hash, s: Store, bearer: string, now: int)
    requires Inv(s)
    ensures SameVerdict(Authenticate(hash, s, bearer, now).0, Plain(hash, s.table, bearer, now))
    ensures Inv(Authenticate(hash, s, bearer, now).1)
  {
    match ParseBearer(bearer)
    case None =>
    case Some((prefix, secret)) =>
      match Hit(s, prefix, now)
      case Some(e) => ByPrefixIs(s.table, prefix, e.token.id);
      case None =>
  }

  // ---- what a bearer is worth ----

  /** The bearer is the one this row was made for, and the row has not expired. */
  predicate Opens(hash: Hash, r: Row, bearer: string, now: int) {
    && |bearer| == 37 && bearer[..4] == "ccp_" && bearer[12] == '_' && '_' !in bearer[4..12]
    && r.token.prefix == bearer[4..12] && hash(bearer[13..]) == r.hash
    && (r.token.expiresAt.None? || now < r.token.expiresAt.value)
  }

  lemma ParsedShape(bearer: string)
    ensures match ParseBearer(bearer)
      case Some((p, s)) =>
        && |bearer| == 37 && bearer[..4] == "ccp_" && bearer[12] == '_'
        && p == bearer[4..12] && s == bearer[13..] && '_' !in p
      case None => !(|bearer| == 37 && bearer[..4] == "ccp_" && bearer[12] == '_' && '_' !in bearer[4..12])
  {
    match ParseBearer(bearer)
    case Some((p, s)) => BearerRoundTrip(bearer, p, s);
    case None =>
      if |bearer| == 37 && bearer[..4] == "ccp_" && bearer[12] == '_' && '_' !in bearer[4..12] {
        assert bearer == "ccp_" + bearer[4..12] + "_" + bearer[13..];
        BearerRoundTrip(bearer, bearer[4..12], bearer[13..]);
      }
  }

  /** With a sound cache or none, a bearer is accepted exactly when some row opens to it: the prefix is
      the row's, the secret hashes to the row's hash, and the time is before the row's expiry. The
      token is that row's, apart from when it was last used. */
  lemma AcceptsIff(hash: Hash, s: Store, bearer: string, now: int)
    requires Inv(s)
    ensures Authenticate(hash, s, bearer, now).0.Some? <==>
            exists id <- s.table :: Opens(hash, s.table[id], bearer, now)
    ensures forall id | id in s.table && Opens(hash, s.table[id], bearer, now) ::
      SameVerdict(Authenticate(hash, s, bearer, now).0, Some(s.table[id].token))
  {
    HitIsPlain(hash, s, bearer, now);
    ParsedShape(bearer);
    forall id | id in s.table && Opens(hash, s.table[id], bearer, now)
      ensures Plain(hash, s.table, bearer, now) == Some(s.table[id].token)
    {
      ByPrefixIs(s.table, bearer[4..12], id);
    }
  }

  /** Every reachable store is sound, so this is what each call means for a bearer. */
  lemma AcceptsAfterAnyRun(hash: Hash, run: seq<Step>, bearer: string, now: int)
    ensures var s := Exec(hash, Store(map[], map[]), run);
      Authenticate(hash, s, bearer, now).0.Some? <==> exists id <- s.table :: Opens(hash, s.table[id], bearer, now)
  {
    RunKeepsInv(hash, Store(map[], map[]), run);
    AcceptsIff(hash, Exec(hash, Store(map[], map[]), run), bearer, now);
  }

  /** A new token opens to its bearer until it expires. */
  lemma AddedOpens(hash: Hash, s: Store, r: Row, secret: string, now: int)
    requires Inv(s) && r.token.id !in s.table && Unused(s.table, r.token.prefix)
    requires |r.token.prefix| == 8 && '_' !in r.token.prefix && |secret| == 24 && r.hash == hash(secret)
    ensures SameVerdict(
      Authenticate(hash, Insert(s, r), "ccp_" + r.token.prefix + "_" + secret, now).0,
      if r.token.expiresAt.None? || now < r.token.expiresAt.value then Some(r.token) else None)
  {
    StepKeepsInv(hash, s, AddToken(r));
    var bearer := "ccp_" + r.token.prefix + "_" + secret;
    var s' := Insert(s, r);
    AcceptsIff(hash, s', bearer, now);
    assert bearer[..4] == "ccp_" && bearer[4..12] == r.token.prefix && bearer[13..] == secret;
    assert s'.table[r.token.id] == r;
    assert forall id | id in s'.table && s'.table[id].token.prefix == r.token.prefix :: id == r.token.id;
  }

  /** After a revocation no bearer opens that token, and every other bearer is worth what it was. */
  lemma RevokedIsRefused(hash: Hash, s: Store, id: string, bearer: string, now: int)
    requires Inv(s) && id in s.table
    ensures var a, b := Authenticate(hash, s, bearer, now).0, Authenticate(hash, Revoke(s, id), bearer, now).0;
      if Opens(hash, s.table[id], bearer, now) then b == None else SameVerdict(a, b)
  {
    StepKeepsInv(hash, s, DeleteToken(id));
    var s' := Revoke(s, id);
    AcceptsIff(hash, s, bearer, now);
    AcceptsIff(hash, s', bearer, now);
    if Opens(hash, s.table[id], bearer, now) {
      assert forall j | j in s.table && s.table[j].token.prefix == bearer[4..12] :: j == id;
    } else if exists j <- s.table :: Opens(hash, s.table[j], bearer, now) {
      var j :| j in s.table && Opens(hash, s.table[j], bearer, now);
      assert j in s'.table && s'.table[j] == s.table[j];
    }
  }

  /** A rotation to an unused prefix gives the same token a new bearer. The old one is refused. */
  lemma RotatedOpens(hash: Hash, s: Store, id: string, prefix: string, secret: string, now: int)
    requires Inv(s) && id in s.table && Unused(s.table, prefix)
    requires |prefix| == 8 && '_' !in prefix && |secret| == 24
    ensures var t := s.table[id].token;
      var s' := Rotate(s, id, prefix, hash(secret));
      && SameVerdict(
           Authenticate(hash, s', "ccp_" + prefix + "_" + secret, now).0,
           if t.expiresAt.None? || now < t.expiresAt.value then Some(t.(prefix := prefix)) else None)
  {
    var s' := Rotate(s, id, prefix, hash(secret));
    assert Unused(s.table - {id}, prefix);
    StepKeepsInv(hash, s, NewSecret(id, prefix, hash(secret)));
    var bearer := "ccp_" + prefix + "_" + secret;
    assert bearer[..4] == "ccp_" && bearer[4..12] == prefix && bearer[13..] == secret;
    AcceptsIff(hash, s', bearer, now);
    assert s'.table[id] == Row(hash(secret), s.table[id].token.(prefix := prefix));
    assert forall j | j in s'.table && s'.table[j].token.prefix == prefix :: j == id;
  }

  lemma RotatedIsRefused(hash: Hash, s: Store, id: string, prefix: string, rowHash: string, bearer: string, now: int)
    requires Inv(s) && id in s.table && Unused(s.table, prefix) && Opens(hash, s.table[id], bearer, now)
    ensures Authenticate(hash, Rotate(s, id, prefix, rowHash), bearer, now).0 == None
  {
    StepKeepsInv(hash, s, NewSecret(id, prefix, rowHash));
    AcceptsIff(hash, Rotate(s, id, prefix, rowHash), bearer, now);
    assert forall j | j in s.table && s.table[j].token.prefix == bearer[4..12] :: j == id;
  }

  /** From a debug switch on, a bearer is accepted as before, with the new flag on that token. */
  lemma DebugIsSeen(hash: Hash, s: Store, id: string, enabled: bool, bearer: string, now: int)
    requires Inv(s) && id in s.table && Opens(hash, s.table[id], bearer, now)
    ensures SameVerdict(
      Authenticate(hash, SetDebugCapture(s, id, enabled), bearer, now).0,
      Some(s.table[id].token.(debugCapture := enabled)))
  {
    StepKeepsInv(hash, s, Debug(id, enabled));
    var s' := SetDebugCapture(s, id, enabled);
    AcceptsIff(hash, s', bearer, now);
    assert id in s'.table && Opens(hash, s'.table[id], bearer, now);
  }

  /** A use is recorded on the token and changes what no bearer is worth. */
  lemma UseIsRecorded(hash: Hash, s: Store, id: string, used: int, bearer: string, now: int)
    requires Inv(s) && id in s.table
    ensures var s' := Touch(s, id, used);
      && s'.table[id] == Row(s.table[id].hash, s.table[id].token.(lastUsedAt := Some(used)))
      && s'.table - {id} == s.table - {id}
      && SameVerdict(Authenticate(hash, s', bearer, now).0, Authenticate(hash, s, bearer, now).0)
  {
    StepKeepsInv(hash, s, UsedNow(id, used));
    var s' := Touch(s, id, used);
    forall j
      ensures j in s.table <==> j in s'.table
      ensures j in s.table ==> SameRow(s.table[j], s'.table[j])
    {
    }
    SameRowsSameWorth(hash, s, s', bearer, now);
  }

  predicate SameRow(a: Row, b: Row) { a.hash == b.hash && Anonymous(a.token) == Anonymous(b.token) }

  lemma SameRowOpens(hash: Hash, a: Row, b: Row, bearer: string, now: int)
    requires SameRow(a, b)
    ensures Opens(hash, a, bearer, now) == Opens(hash, b, bearer, now)
  {
    assert a.token.prefix == Anonymous(a.token).prefix && b.token.prefix == Anonymous(b.token).prefix;
    assert a.token.expiresAt == Anonymous(a.token).expiresAt && b.token.expiresAt == Anonymous(b.token).expiresAt;
  }

  lemma SameRowsSameWorth(hash: Hash, s: Store, s': Store, bearer: string, now: int)
    requires Inv(s) && Inv(s')
    requires forall j :: j in s.table <==> j in s'.table
    requires forall j <- s.table :: SameRow(s.table[j], s'.table[j])
    ensures SameVerdict(Authenticate(hash, s', bearer, now).0, Authenticate(hash, s, bearer, now).0)
  {
    AcceptsIff(hash, s, bearer, now);
    AcceptsIff(hash, s', bearer, now);
    forall j | j in s.table
      ensures Opens(hash, s.table[j], bearer, now) == Opens(hash, s'.table[j], bearer, now)
    {
      SameRowOpens(hash, s.table[j], s'.table[j], bearer, now);
    }
  }

  /** A bearer seeded into an empty table opens a token with the chat scope that never expires. */
  lemma SeededOpens(hash: Hash, bearer: string, id: string, seeded: int, now: int)
    requires ParseBearer(bearer).Some?
    ensures var (p, secret) := ParseBearer(bearer).value;
      var s := Insert(Store(map[], map[]), Row(hash(secret), SeedToken(id, p, seeded)));
      var tok := Authenticate(hash, s, bearer, now).0;
      tok.Some? && tok.value.id == id && tok.value.scopes == ["chat"] && tok.value.createdAt == seeded
      && tok.value.rpm == 0 && tok.value.tpd == 0 && tok.value.principal == "" && !tok.value.debugCapture
  {
    ParsedShape(bearer);
    var (p, secret) := ParseBearer(bearer).value;
    assert bearer == "ccp_" + p + "_" + secret;
    AddedOpens(hash, Store(map[], map[]), Row(hash(secret), SeedToken(id, p, seeded)), secret, now);
  }

  /** An accepted login is answered from the cache for two minutes, the last instant included and
      until the token expires, whatever the table has come to hold; after that the table is asked. */
  lemma RemembersForTwoMinutes(hash: Hash, s: Store, bearer: string, now: int, later: int, t: Table)
    requires ParseBearer(bearer).Some? && Hit(s, ParseBearer(bearer).value.0, now).None?
    requires Authenticate(hash, s, bearer, now).0.Some? && now <= later
    ensures var (tok, s') := Authenticate(hash, s, bearer, now);
      Authenticate(hash, s'.(table := t), bearer, later).0 ==
        if later > now + 120 then Plain(hash, t, bearer, later)
        else if tok.value.expiresAt.Some? && tok.value.expiresAt.value <= later then None
        else tok
  {
  }

  datatype Step =
    | AddToken(row: Row)                    // Create and Seed
    | Login(bearer: string, now: int)
    | DeleteToken(id: string)
    | NewSecret(id: string, prefix: string, rowHash: string)
    | Debug(id: string, enabled: bool)
    | UsedNow(id: string, now: int)         // the background update of last_used_at

  ghost function Apply(hash: Hash, s: Store, st: Step): Store {
    match st
    case AddToken(row) => Insert(s, row)
    case Login(bearer, now) => Authenticate(hash, s, bearer, now).1
    case DeleteToken(id) => Revoke(s, id)
    case NewSecret(id, prefix, rowHash) => Rotate(s, id, prefix, rowHash)
    case Debug(id, enabled) => SetDebugCapture(s, id, enabled)
    case UsedNow(id, now) => Touch(s, id, now)
  }

  ghost function Exec(hash: Hash, s: Store, run: seq<Step>): Store
    decreases |run|
  {
    if run == [] then s else Exec(hash, Apply(hash, s, run[0]), run[1..])
  }

  lemma StepKeepsInv(hash: Hash, s: Store, st: Step)
    requires Inv(s)
    ensures Inv(Apply(hash, s, st))
  {
    match st {
      case Login(bearer, now) => HitIsPlain(hash, s, bearer, now);
      case NewSecret(id, prefix, rowHash) => RotateKeepsInv(s, id, prefix, rowHash);
      case _ =>
    }
  }

  lemma RotateKeepsInv(s: Store, id: string, prefix: string, rowHash: string)
    requires Inv(s)
    ensures Inv(Rotate(s, id, prefix, rowHash))
  {
    if id in s.table && Unused(s.table - {id}, prefix) {
      assert forall j | j in s.table && j != id :: j in s.table - {id};
    }
  }

  lemma {:induction false} RunKeepsInv(hash: Hash, s: Store, run: seq<Step>)
    requires Inv(s)
    ensures Inv(Exec(hash, s, run))
    decreases |run|
  {
    if run != [] {
      StepKeepsInv(hash, s, run[0]);
      RunKeepsInv(hash, Apply(hash, s, run[0]), run[1..]);
    }
  }

  /** After any sequence of creations, seeds, logins, revocations, rotations, debug switches and
      last-used updates, the cached `Authenticate` gives the verdict and the token of a plain lookup,
      for every bearer at every time. */
  lemma CachedEqualsPlain(hash: Hash, run: seq<Step>, bearer: string, now: int)
    ensures var s := Exec(hash, Store(map[], map[]), run);
      SameVerdict(Authenticate(hash, s, bearer, now).0, Plain(hash, s.table, bearer, now))
  {
    RunKeepsInv(hash, Store(map[], map[]), run);
    HitIsPlain(hash, Exec(hash, Store(map[], map[]), run), bearer, now);
  }

  // ---- when the row read and cachePut are separate steps ----

  /** A login between its row read and its `cachePut`: the table version it read, and whether the
      cache has been cleared since. */
  datatype Login = Login(prefix: string, row: Row, version: nat, late: bool)

  /** Where a cached entry came from: the table version, the time of its put, and whether the cache
      was cleared between its read and its put. */
  datatype Origin = Origin(version: nat, at: int, late: bool)

  /** `versions` is the history of tables, the current one last. `clearing` counts the management
      calls that have committed and have yet to clear the cache. */
  datatype Concurrent = Concurrent(
    versions: seq<Table>, now: int, cache: Cache, logins: seq<Login>, clearing: nat, origin: map<string, Origin>)

  datatype CStep =
    | Tick(now: int)              // the clock never goes back
    | Commit(call: Step)          // the statement of a management call, or of touchAsync
    | CacheClear
    | ReadRow(bearer: string)     // a login that missed the cache reads its row and admits it
    | CachePut(k: nat)
    | CacheDelete(prefix: string)

  function Nothing(now: int): Concurrent { Concurrent([map[]], now, map[], [], 0, map[]) }

  function Current(s: Concurrent): Table { if s.versions == [] then map[] else s.versions[|s.versions| - 1] }

  ghost function Committed(hash: Hash, t: Table, call: Step): Table { Apply(hash, Store(t, map[]), call).table }

  /** The calls that go on to clear the cache; those that fail or change no token do not. */
  predicate Clears(t: Table, call: Step) {
    match call
    case DeleteToken(id) => id in t
    case NewSecret(id, prefix, _) => id in t && Unused(t - {id}, prefix)
    case Debug(id, _) => id in t
    case _ => false
  }

  ghost function CApply(hash: Hash, s: Concurrent, st: CStep): Option<Concurrent> {
    match st
    case Tick(now) => if now < s.now then None else Some(s.(now := now))
    case Commit(call) =>
      if call.Login? then None
      else Some(s.(versions := s.versions + [Committed(hash, Current(s), call)],
                   clearing := s.clearing + if Clears(Current(s), call) then 1 else 0))
    case CacheClear =>
      if s.clearing == 0 then None
      else Some(s.(cache := map[], clearing := s.clearing - 1,
                   logins := seq(|s.logins|, i requires 0 <= i < |s.logins| => s.logins[i].(late := true))))
    case ReadRow(bearer) =>
      if s.versions == [] || Plain(hash, Current(s), bearer, s.now).None? then Some(s)
      else Some(s.(logins := s.logins + [ReadBy(s, bearer)]))
    case CachePut(k) =>
      if k >= |s.logins| then None
      else
        var l := s.logins[k];
        Some(s.(cache := s.cache[l.prefix := CacheEntry(l.row.hash, l.row.token, s.now + CACHE_TTL)],
                origin := s.origin[l.prefix := Origin(l.version, s.now, l.late)],
                logins := s.logins[..k] + s.logins[k + 1..]))
    case CacheDelete(prefix) => Some(s.(cache := s.cache - {prefix}))
  }

  ghost function ReadBy(s: Concurrent, bearer: string): Login
    requires ParseBearer(bearer).Some? && s.versions != []
    requires ByPrefix(Current(s), ParseBearer(bearer).value.0).Some?
  {
    var prefix := ParseBearer(bearer).value.0;
    Login.Login(prefix, ByPrefix(Current(s), prefix).value, |s.versions| - 1, false)
  }

  ghost function CExec(hash: Hash, s: Concurrent, run: seq<CStep>): Option<Concurrent>
    decreases |run|
  {
    if run == [] then Some(s)
    else match CApply(hash, s, run[0])
      case Some(s') => CExec(hash, s', run[1..])
      case None => None
  }

  ghost predicate FromVersion(versions: seq<Table>, v: nat, prefix: string, r: Row) {
    v < |versions| && IsRow(versions[v], prefix, r)
  }

  /** With no clear outstanding, a row read since the last clear still stands. */
  ghost predicate LoginSound(s: Concurrent, l: Login) {
    && FromVersion(s.versions, l.version, l.prefix, l.row)
    && (!l.late && s.clearing == 0 ==> Stands(Current(s), l.row))
  }

  ghost predicate EntrySound(s: Concurrent, prefix: string) {
    && prefix in s.cache && prefix in s.origin
    && var (e, o) := (s.cache[prefix], s.origin[prefix]);
    && FromVersion(s.versions, o.version, prefix, RowOf(e))
    && o.at <= s.now && e.expiresAt == o.at + CACHE_TTL
    && (!o.late && s.clearing == 0 ==> Stands(Current(s), RowOf(e)))
  }

  ghost predicate CInv(s: Concurrent) {
    && s.versions != [] && (forall v | 0 <= v < |s.versions| :: TableSound(s.versions[v]))
    && (forall k | 0 <= k < |s.logins| :: LoginSound(s, s.logins[k]))
    && (forall x <- s.cache :: EntrySound(s, x))
  }

  /** The only commits that change a row otherwise than in its last-used time clear the cache. */
  lemma CommitKeepsRows(hash: Hash, t: Table, call: Step)
    requires TableSound(t) && !call.Login?
    ensures TableSound(Committed(hash, t, call))
    ensures !Clears(t, call) ==> forall r :: Stands(t, r) ==> Stands(Committed(hash, t, call), r)
  {
    assert Inv(Store(t, map[]));
    StepKeepsInv(hash, Store(t, map[]), call);
  }

  lemma CommitKeepsInv(hash: Hash, s: Concurrent, call: Step)
    requires CInv(s) && !call.Login?
    ensures CInv(CApply(hash, s, Commit(call)).value)
  {
    var s' := CApply(hash, s, Commit(call)).value;
    CommitKeepsRows(hash, Current(s), call);
    assert Current(s') == Committed(hash, Current(s), call);
    forall k | 0 <= k < |s'.logins|
      ensures LoginSound(s', s'.logins[k])
    {
      assert LoginSound(s, s.logins[k]);
    }
    forall x | x in s'.cache
      ensures EntrySound(s', x)
    {
      assert EntrySound(s, x);
    }
  }

  lemma CachePutKeepsInv(hash: Hash, s: Concurrent, k: nat)
    requires CInv(s) && k < |s.logins|
    ensures CInv(CApply(hash, s, CachePut(k)).value)
  {
    var s' := CApply(hash, s, CachePut(k)).value;
    assert LoginSound(s, s.logins[k]) && Current(s') == Current(s);
    forall j | 0 <= j < |s'.logins|
      ensures LoginSound(s', s'.logins[j])
    {
      assert LoginSound(s, s.logins[if j < k then j else j + 1]);
    }
    forall x | x in s'.cache
      ensures EntrySound(s', x)
    {
      if x != s.logins[k].prefix { assert EntrySound(s, x); }
    }
  }

  lemma CStepKeepsInv(hash: Hash, s: Concurrent, st: CStep)
    requires CInv(s) && CApply(hash, s, st).Some?
    ensures CInv(CApply(hash, s, st).value)
  {
    match st {
      case Commit(call) => CommitKeepsInv(hash, s, call);
      case CachePut(k) => CachePutKeepsInv(hash, s, k);
      case ReadRow(bearer) =>
        if s.versions != [] && Plain(hash, Current(s), bearer, s.now).Some? { ReadKeepsInv(s, ReadBy(s, bearer)); }
      case CacheClear => ClearKeepsInv(hash, s);
      case Tick(now) => TickKeepsInv(s, now);
      case CacheDelete(prefix) => DeleteKeepsInv(s, prefix);
    }
  }

  lemma ReadKeepsInv(s: Concurrent, l: Login)
    requires CInv(s) && LoginSound(s, l)
    ensures CInv(s.(logins := s.logins + [l]))
  {
    var s' := s.(logins := s.logins + [l]);
    assert Current(s') == Current(s);
    forall k | 0 <= k < |s'.logins|
      ensures LoginSound(s', s'.logins[k])
    {
      if k < |s.logins| { assert LoginSound(s, s.logins[k]); }
    }
    forall x | x in s'.cache
      ensures EntrySound(s', x)
    {
      assert EntrySound(s, x);
    }
  }

  lemma ClearKeepsInv(hash: Hash, s: Concurrent)
    requires CInv(s) && s.clearing > 0
    ensures CInv(CApply(hash, s, CacheClear).value)
  {
    var s' := CApply(hash, s, CacheClear).value;
    forall k | 0 <= k < |s'.logins|
      ensures LoginSound(s', s'.logins[k])
    {
      assert LoginSound(s, s.logins[k]);
    }
  }

  lemma TickKeepsInv(s: Concurrent, now: int)
    requires CInv(s) && s.now <= now
    ensures CInv(s.(now := now))
  {
    var s' := s.(now := now);
    assert Current(s') == Current(s);
    forall k | 0 <= k < |s.logins|
      ensures LoginSound(s', s.logins[k])
    {
      assert LoginSound(s, s.logins[k]);
    }
    forall x | x in s.cache
      ensures EntrySound(s', x)
    {
      assert EntrySound(s, x);
    }
  }

  lemma DeleteKeepsInv(s: Concurrent, prefix: string)
    requires CInv(s)
    ensures CInv(s.(cache := s.cache - {prefix}))
  {
    var s' := s.(cache := s.cache - {prefix});
    assert Current(s') == Current(s);
    forall k | 0 <= k < |s.logins|
      ensures LoginSound(s', s.logins[k])
    {
      assert LoginSound(s, s.logins[k]);
    }
    forall x | x in s'.cache
      ensures EntrySound(s', x)
    {
      assert EntrySound(s, x);
    }
  }

  lemma {:induction false} CRunKeepsInv(hash: Hash, s: Concurrent, run: seq<CStep>)
    requires CInv(s) && CExec(hash, s, run).Some?
    ensures CInv(CExec(hash, s, run).value)
    decreases |run|
  {
    if run != [] {
      CStepKeepsInv(hash, s, run[0]);
      CRunKeepsInv(hash, CApply(hash, s, run[0]).value, run[1..]);
    }
  }

  /** The store an `Authenticate` sees at a moment of a run. */
  function Seen(s: Concurrent): Store { Store(Current(s), s.cache) }

  /** A cached answer is never invented: it is what a plain lookup gives in the table version its
      row was read from, and its entry was put in the past, at most one time to live ago. */
  lemma CachedAnswersAreBounded(hash: Hash, start: int, run: seq<CStep>, bearer: string)
    requires CExec(hash, Nothing(start), run).Some? && ParseBearer(bearer).Some?
    requires var s := CExec(hash, Nothing(start), run).value;
      Hit(Seen(s), ParseBearer(bearer).value.0, s.now).Some?
    ensures var s := CExec(hash, Nothing(start), run).value;
      var prefix := ParseBearer(bearer).value.0;
      && prefix in s.origin && s.origin[prefix].version < |s.versions|
      && s.origin[prefix].at <= s.now <= s.origin[prefix].at + CACHE_TTL
      && Authenticate(hash, Seen(s), bearer, s.now).0
         == Plain(hash, s.versions[s.origin[prefix].version], bearer, s.now)
  {
    CRunKeepsInv(hash, Nothing(start), run);
    var s := CExec(hash, Nothing(start), run).value;
    var prefix := ParseBearer(bearer).value.0;
    assert EntrySound(s, prefix);
    ByPrefixIs(s.versions[s.origin[prefix].version], prefix, s.cache[prefix].token.id);
  }

  /** Whatever the interleaving, a cached answer can differ from the table only while a committed
      call has yet to clear the cache, or if the cache was cleared between the entry's row read and
      its put. */
  lemma SettledAnswersAgree(hash: Hash, start: int, run: seq<CStep>, bearer: string)
    requires CExec(hash, Nothing(start), run).Some? && ParseBearer(bearer).Some?
    requires var s := CExec(hash, Nothing(start), run).value;
      var prefix := ParseBearer(bearer).value.0;
      s.clearing == 0 && (prefix in s.cache && prefix in s.origin ==> !s.origin[prefix].late)
    ensures var s := CExec(hash, Nothing(start), run).value;
      SameVerdict(Authenticate(hash, Seen(s), bearer, s.now).0, Plain(hash, Current(s), bearer, s.now))
  {
    CRunKeepsInv(hash, Nothing(start), run);
    var s := CExec(hash, Nothing(start), run).value;
    var prefix := ParseBearer(bearer).value.0;
    if prefix in s.cache {
      assert EntrySound(s, prefix);
      ByPrefixIs(Current(s), prefix, s.cache[prefix].token.id);
    }
  }

  /** A bearer the cache accepts gets the plain verdict exactly when its row is still there. */
  lemma AcceptedAgreesIff(hash: Hash, s: Store, bearer: string, now: int)
    requires TableSound(s.table) && ParseBearer(bearer).Some?
    requires var prefix := ParseBearer(bearer).value.0;
      Hit(s, prefix, now).Some? && s.cache[prefix].token.prefix == prefix
    requires Authenticate(hash, s, bearer, now).0.Some?
    ensures SameVerdict(Authenticate(hash, s, bearer, now).0, Plain(hash, s.table, bearer, now)) <==>
            Stands(s.table, RowOf(s.cache[ParseBearer(bearer).value.0]))
  {
    var prefix := ParseBearer(bearer).value.0;
    var e := s.cache[prefix];
    if Stands(s.table, RowOf(e)) { ByPrefixIs(s.table, prefix, e.token.id); }
  }

  /** The same over all runs. */
  lemma CachedAnswerAgreesIff(hash: Hash, start: int, run: seq<CStep>, bearer: string)
    requires CExec(hash, Nothing(start), run).Some? && ParseBearer(bearer).Some?
    requires var s := CExec(hash, Nothing(start), run).value;
      && Hit(Seen(s), ParseBearer(bearer).value.0, s.now).Some?
      && Authenticate(hash, Seen(s), bearer, s.now).0.Some?
    ensures var s := CExec(hash, Nothing(start), run).value;
      SameVerdict(Authenticate(hash, Seen(s), bearer, s.now).0, Plain(hash, Current(s), bearer, s.now)) <==>
      Stands(Current(s), RowOf(s.cache[ParseBearer(bearer).value.0]))
  {
    CRunKeepsInv(hash, Nothing(start), run);
    var s := CExec(hash, Nothing(start), run).value;
    assert EntrySound(s, ParseBearer(bearer).value.0);
    AcceptedAgreesIff(hash, Seen(s), bearer, s.now);
  }

  // ---- the window between a row read and its put ----

  /** No call hands out the prefix of `r` again. */
  predicate NotReissued(call: Step, r: Row) {
    && (call.AddToken? ==> call.row.token.prefix != r.token.prefix)
    && (call.NewSecret? ==> call.prefix != r.token.prefix)
  }

  ghost predicate NeverReissued(window: seq<CStep>, r: Row) {
    forall st <- window :: st.Commit? ==> NotReissued(st.call, r)
  }

  /** The call takes the token's bearer away: a revocation, or a rotation that goes through. */
  predicate Ends(t: Table, call: Step, id: string) {
    match call
    case DeleteToken(d) => d == id
    case NewSecret(d, prefix, _) => d == id && Unused(t - {d}, prefix)
    case _ => false
  }

  ghost predicate EndedDuring(hash: Hash, s: Concurrent, window: seq<CStep>, id: string)
    decreases |window|
  {
    window != [] &&
    (EndsIt(s, window[0], id)
     || match CApply(hash, s, window[0])
        case Some(s') => EndedDuring(hash, s', window[1..], id)
        case None => false)
  }

  /** The debug flag of the token after the calls of the window. */
  function FlagAfter(flag: bool, window: seq<CStep>, id: string): bool {
    if window == [] then flag
    else
      FlagAfterOne(FlagAfter(flag, window[..|window| - 1], id), window[|window| - 1], id)
  }

  function FlagAfterOne(flag: bool, st: CStep, id: string): bool {
    if st.Commit? && st.call.Debug? && st.call.id == id then st.call.enabled else flag
  }

  predicate Present(t: Table, r: Row) { r.token.id in t && t[r.token.id].token.prefix == r.token.prefix }

  function Flagged(t: Token, flag: bool): Token { Anonymous(t).(debugCapture := flag) }

  /** A row with the prefix of `r` is `r`, but for its last-used time and its debug flag. */
  ghost predicate Lineage(t: Table, r: Row) {
    forall id <- t :: t[id].token.prefix == r.token.prefix ==>
      id == r.token.id && t[id].hash == r.hash && Flagged(t[id].token, false) == Flagged(r.token, false)
  }

  lemma CommitKeepsLineage(hash: Hash, t: Table, call: Step, r: Row)
    requires TableSound(t) && Lineage(t, r) && !call.Login? && NotReissued(call, r)
    ensures var t' := Committed(hash, t, call);
      && Lineage(t', r)
      && (Present(t', r) <==> Present(t, r) && !Ends(t, call, r.token.id))
      && (Present(t', r) ==>
            t'[r.token.id].token.debugCapture
            == FlagAfterOne(t[r.token.id].token.debugCapture, Commit(call), r.token.id))
  {
  }

  lemma FlagAfterOneMore(flag: bool, st: CStep, window: seq<CStep>, id: string)
    ensures FlagAfter(flag, [st] + window, id) == FlagAfter(FlagAfterOne(flag, st, id), window, id)
  {
    if window == [] {
      assert [st] + window == [st] && [st][..0] == [];
    } else {
      assert ([st] + window)[..|window|] == [st] + window[..|window| - 1];
      FlagAfterOneMore(flag, st, window[..|window| - 1], id);
    }
  }

  ghost predicate EndsIt(s: Concurrent, st: CStep, id: string) { st.Commit? && Ends(Current(s), st.call, id) }

  lemma StepKeepsLineage(hash: Hash, s: Concurrent, st: CStep, r: Row)
    requires CInv(s) && Lineage(Current(s), r) && CApply(hash, s, st).Some?
    requires st.Commit? ==> NotReissued(st.call, r)
    ensures var t' := Current(CApply(hash, s, st).value);
      && Lineage(t', r)
      && (Present(t', r) <==> Present(Current(s), r) && !EndsIt(s, st, r.token.id))
      && (Present(t', r) ==>
            t'[r.token.id].token.debugCapture
            == FlagAfterOne(Current(s)[r.token.id].token.debugCapture, st, r.token.id))
  {
    CurrentAfter(hash, s, st);
    if st.Commit? { CommitKeepsLineage(hash, Current(s), st.call, r); }
  }

  lemma CurrentAfter(hash: Hash, s: Concurrent, st: CStep)
    requires CApply(hash, s, st).Some?
    ensures Current(CApply(hash, s, st).value)
         == if st.Commit? then Committed(hash, Current(s), st.call) else Current(s)
    ensures st.Commit? ==> !st.call.Login?
  {
  }

  /** What becomes of the row in the window. */
  lemma {:induction false} RowInTheWindow(hash: Hash, s: Concurrent, window: seq<CStep>, r: Row)
    requires CInv(s) && Lineage(Current(s), r) && NeverReissued(window, r) && CExec(hash, s, window).Some?
    ensures var t := Current(CExec(hash, s, window).value);
      && Lineage(t, r)
      && (Present(t, r) <==> Present(Current(s), r) && !EndedDuring(hash, s, window, r.token.id))
      && (Present(t, r) ==>
            t[r.token.id].token.debugCapture
            == FlagAfter(Current(s)[r.token.id].token.debugCapture, window, r.token.id))
    decreases |window|
  {
    if window != [] {
      var s' := CApply(hash, s, window[0]).value;
      CStepKeepsInv(hash, s, window[0]);
      StepKeepsLineage(hash, s, window[0], r);
      RowInTheWindow(hash, s', window[1..], r);
      assert window == [window[0]] + window[1..];
      if Present(Current(s), r) {
        FlagAfterOneMore(Current(s)[r.token.id].token.debugCapture, window[0], window[1..], r.token.id);
      }
    }
  }

  /** The window, exactly. A login admits `bearer` on a row it has just read, anything happens that
      does not hand out its prefix again (`window`), and then it puts the row in the cache. From
      there the bearer gets the verdict of a plain lookup if and only if the token has expired
      meanwhile, or else was neither revoked nor rotated in the window and its debug flag was left
      as it had been. */
  lemma LatePutAgreesIff(hash: Hash, start: int, run: seq<CStep>, bearer: string, window: seq<CStep>, k: nat)
    requires CExec(hash, Nothing(start), run).Some?
    requires Admitting(hash, CExec(hash, Nothing(start), run).value, bearer)
    requires PutsAfter(hash, CExec(hash, Nothing(start), run).value, bearer, window, k)
    requires NeverReissued(window, ReadBy(CExec(hash, Nothing(start), run).value, bearer).row)
    ensures var s := CExec(hash, Nothing(start), run).value;
      var s1 := CApply(hash, s, ReadRow(bearer)).value;
      var s2 := CApply(hash, CExec(hash, s1, window).value, CachePut(k)).value;
      SameVerdict(Authenticate(hash, Seen(s2), bearer, s2.now).0, Plain(hash, Current(s2), bearer, s2.now)) <==>
      RowSurvives(hash, s1, window, ReadBy(s, bearer).row, s2.now)
  {
    var s := CExec(hash, Nothing(start), run).value;
    CRunKeepsInv(hash, Nothing(start), run);
    var s1 := CApply(hash, s, ReadRow(bearer)).value;
    CStepKeepsInv(hash, s, ReadRow(bearer));
    ReadIsCurrent(hash, s, bearer);
    PutAfterWindow(hash, s1, window, k, ReadBy(s, bearer).row, bearer);
  }

  /** The token has expired, or it is as it was read: not ended, and its debug flag the same. */
  ghost predicate RowSurvives(hash: Hash, s: Concurrent, window: seq<CStep>, r: Row, now: int) {
    || Expired(r.token, now)
    || (!EndedDuring(hash, s, window, r.token.id)
        && FlagAfter(r.token.debugCapture, window, r.token.id) == r.token.debugCapture)
  }

  lemma ReadIsCurrent(hash: Hash, s: Concurrent, bearer: string)
    requires CInv(s) && Admitting(hash, s, bearer)
    ensures var r := ReadBy(s, bearer).row;
      && IsRow(Current(s), ParseBearer(bearer).value.0, r) && Lineage(Current(s), r)
      && hash(ParseBearer(bearer).value.1) == r.hash
  {
  }

  lemma PutAfterWindow(hash: Hash, s: Concurrent, window: seq<CStep>, k: nat, r: Row, bearer: string)
    requires CInv(s) && IsRow(Current(s), r.token.prefix, r) && Lineage(Current(s), r) && NeverReissued(window, r)
    requires ParseBearer(bearer).Some? && ParseBearer(bearer).value.0 == r.token.prefix
    requires hash(ParseBearer(bearer).value.1) == r.hash
    requires CExec(hash, s, window).Some?
    requires var s1 := CExec(hash, s, window).value;
      k < |s1.logins| && s1.logins[k].prefix == r.token.prefix && s1.logins[k].row == r
    ensures var s2 := CApply(hash, CExec(hash, s, window).value, CachePut(k)).value;
      SameVerdict(Authenticate(hash, Seen(s2), bearer, s2.now).0, Plain(hash, Current(s2), bearer, s2.now)) <==>
      RowSurvives(hash, s, window, r, s2.now)
  {
    RowInTheWindow(hash, s, window, r);
    CRunKeepsInv(hash, s, window);
    PutNowAgreesIff(hash, CExec(hash, s, window).value, k, r, bearer);
    SurvivesIff(hash, s, window, r);
  }

  /** The table has the row as `r`, or `r` has expired. */
  predicate Unchanged(t: Table, r: Row, now: int) {
    || Expired(r.token, now)
    || (Present(t, r) && t[r.token.id].token.debugCapture == r.token.debugCapture)
  }

  lemma SurvivesIff(hash: Hash, s: Concurrent, window: seq<CStep>, r: Row)
    requires CInv(s) && IsRow(Current(s), r.token.prefix, r) && Lineage(Current(s), r) && NeverReissued(window, r)
    requires CExec(hash, s, window).Some?
    ensures forall now ::
      RowSurvives(hash, s, window, r, now) <==> Unchanged(Current(CExec(hash, s, window).value), r, now)
  {
    RowInTheWindow(hash, s, window, r);
    assert Present(Current(s), r) && Current(s)[r.token.id].token.debugCapture == r.token.debugCapture;
  }

  lemma PutNowAgreesIff(hash: Hash, s: Concurrent, k: nat, r: Row, bearer: string)
    requires CInv(s) && Lineage(Current(s), r)
    requires ParseBearer(bearer).Some? && ParseBearer(bearer).value.0 == r.token.prefix
    requires hash(ParseBearer(bearer).value.1) == r.hash
    requires k < |s.logins| && s.logins[k].prefix == r.token.prefix && s.logins[k].row == r
    ensures var s' := CApply(hash, s, CachePut(k)).value;
      SameVerdict(Authenticate(hash, Seen(s'), bearer, s'.now).0, Plain(hash, Current(s'), bearer, s'.now)) <==>
      Unchanged(Current(s), r, s'.now)
  {
    var s' := CApply(hash, s, CachePut(k)).value;
    assert Current(s') == Current(s) && TableSound(Current(s));
    assert s'.cache[r.token.prefix] == CacheEntry(r.hash, r.token, s'.now + CACHE_TTL);
    PutVerdictAgreesIff(hash, Seen(s'), bearer, s'.now, r);
  }

  ghost predicate Admitting(hash: Hash, s: Concurrent, bearer: string) {
    s.versions != [] && Plain(hash, Current(s), bearer, s.now).Some?
  }

  /** After the row read and the window, the `k`-th outstanding login is the one that read. */
  ghost predicate PutsAfter(hash: Hash, s: Concurrent, bearer: string, window: seq<CStep>, k: nat)
    requires Admitting(hash, s, bearer)
  {
    var s1 := CApply(hash, s, ReadRow(bearer)).value;
    && CExec(hash, s1, window).Some?
    && var s2 := CExec(hash, s1, window).value;
    k < |s2.logins| && s2.logins[k].prefix == ReadBy(s, bearer).prefix && s2.logins[k].row == ReadBy(s, bearer).row
  }

  lemma PutVerdictAgreesIff(hash: Hash, s: Store, bearer: string, now: int, r: Row)
    requires TableSound(s.table) && Lineage(s.table, r) && ParseBearer(bearer).Some?
    requires var (prefix, secret) := ParseBearer(bearer).value;
      && hash(secret) == r.hash && r.token.prefix == prefix
      && prefix in s.cache && s.cache[prefix] == CacheEntry(r.hash, r.token, now + CACHE_TTL)
    ensures SameVerdict(Authenticate(hash, s, bearer, now).0, Plain(hash, s.table, bearer, now)) <==>
      Unchanged(s.table, r, now)
  {
    if Present(s.table, r) {
      var t := s.table[r.token.id].token;
      ByPrefixIs(s.table, r.token.prefix, r.token.id);
      assert Flagged(t, false) == Flagged(r.token, false);
      assert t.expiresAt == Flagged(t, false).expiresAt && r.token.expiresAt == Flagged(r.token, false).expiresAt;
      assert Flagged(t, t.debugCapture) == Anonymous(t) && Flagged(r.token, r.token.debugCapture) == Anonymous(r.token);
    } else {
      assert ByPrefix(s.table, r.token.prefix).None?;
    }
  }

  /** The window is real: this login has read its row before a revocation and puts it in the cache
      after the cache was cleared, which leaves the revoked bearer accepted. */
  lemma RevokedInTheWindow(hash: Hash, row: Row, secret: string, bearer: string, now: int)
    requires ParseBearer(bearer) == Some((row.token.prefix, secret)) && Admits(hash, row.hash, row.token, secret, now)
    ensures
      var run := [Commit(AddToken(row)), ReadRow(bearer), Commit(DeleteToken(row.token.id)), CacheClear, CachePut(0)];
      && CExec(hash, Nothing(now), run).Some?
      && var s := CExec(hash, Nothing(now), run).value;
      && Plain(hash, Current(s), bearer, s.now).None?
      && Authenticate(hash, Seen(s), bearer, s.now).0 == Some(row.token)
  {
    var run := [Commit(AddToken(row)), ReadRow(bearer), Commit(DeleteToken(row.token.id)), CacheClear, CachePut(0)];
    var t := map[row.token.id := row];
    var l := Login.Login(row.token.prefix, row, 1, false);
    var s1 := Nothing(now).(versions := [map[], t]);
    var s2 := s1.(logins := [l]);
    var s3 := s2.(versions := [map[], t, map[]], clearing := 1);
    var s4 := s3.(clearing := 0, logins := [l.(late := true)]);
    var s5 := CApply(hash, s4, CachePut(0)).value;
    AddedAndRead(hash, row, secret, bearer, now);
    assert CApply(hash, s2, run[2]) == Some(s3) by {
      assert t - {row.token.id} == map[] && [map[], t] + [map[]] == [map[], t, map[]];
    }
    assert CApply(hash, s3, run[3]) == Some(s4) by {
      assert CApply(hash, s3, CacheClear).value.logins == s4.logins;
    }
    assert CExec(hash, s4, run[4..]) == Some(s5);
    assert CExec(hash, s3, run[3..]) == Some(s5);
    assert CExec(hash, s2, run[2..]) == Some(s5);
    assert CExec(hash, s1, run[1..]) == Some(s5);
    AnsweredFromCache(hash, row, secret, bearer, s5);
  }

  lemma AddedAndRead(hash: Hash, row: Row, secret: string, bearer: string, now: int)
    requires ParseBearer(bearer) == Some((row.token.prefix, secret)) && Admits(hash, row.hash, row.token, secret, now)
    ensures var t := map[row.token.id := row];
      var s1 := Nothing(now).(versions := [map[], t]);
      && CApply(hash, Nothing(now), Commit(AddToken(row))) == Some(s1)
      && CApply(hash, s1, ReadRow(bearer)) == Some(s1.(logins := [Login.Login(row.token.prefix, row, 1, false)]))
  {
    var t := map[row.token.id := row];
    var l := Login.Login(row.token.prefix, row, 1, false);
    assert [map[]] + [t] == [map[], t] && Committed(hash, map[], AddToken(row)) == t;
    ByPrefixIs(t, row.token.prefix, row.token.id);
    assert [] + [l] == [l];
  }

  lemma AnsweredFromCache(hash: Hash, row: Row, secret: string, bearer: string, s: Concurrent)
    requires ParseBearer(bearer) == Some((row.token.prefix, secret)) && Admits(hash, row.hash, row.token, secret, s.now)
    requires row.token.prefix in s.cache && Current(s) == map[]
    requires s.cache[row.token.prefix] == CacheEntry(row.hash, row.token, s.now + CACHE_TTL)
    ensures Plain(hash, Current(s), bearer, s.now).None?
    ensures Authenticate(hash, Seen(s), bearer, s.now).0 == Some(row.token)
  {
  }
}
