/** Permission scopes: parsing, the in-place deduplication behind `--bridge`, `Has`, and the
    comma-separated column they are stored in. */
module Scopes {
  import opened Wrappers
  import Strings

  // ---- trimming ----

  /** The characters `strings.TrimSpace` removes. */
  predicate Space(c: char) {
    || c in {'\t', '\n', '\U{000B}', '\U{000C}', '\r', ' ', '\U{0085}', '\U{00A0}', '\U{1680}'}
    || '\U{2000}' <= c <= '\U{200A}'
    || c in {'\U{2028}', '\U{2029}', '\U{202F}', '\U{205F}', '\U{3000}'}
  }

  function TrimLeft(s: string): string { if s != "" && Space(s[0]) then TrimLeft(s[1..]) else s }

  function TrimRight(s: string): string {
    if s != "" && Space(s[|s| - 1]) then TrimRight(s[..|s| - 1]) else s
  }

  function Trim(s: string): string { TrimRight(TrimLeft(s)) }

  predicate Trimmed(s: string) { s == "" || (!Space(s[0]) && !Space(s[|s| - 1])) }

  lemma {:induction false} TrimLeftIs(s: string)
    ensures TrimLeft(s) == "" || !Space(TrimLeft(s)[0])
    ensures forall c <- TrimLeft(s) :: c in s
  {
    if s != "" && Space(s[0]) { TrimLeftIs(s[1..]); }
  }

  lemma {:induction false} TrimRightIs(s: string)
    ensures TrimRight(s) == "" || !Space(TrimRight(s)[|TrimRight(s)| - 1])
    ensures TrimRight(s) <= s
  {
    if s != "" && Space(s[|s| - 1]) { TrimRightIs(s[..|s| - 1]); }
  }

  lemma TrimIs(s: string)
    ensures Trimmed(Trim(s)) && (forall c <- Trim(s) :: c in s)
    ensures Trimmed(s) ==> Trim(s) == s
  {
    TrimLeftIs(s);
    TrimRightIs(TrimLeft(s));
    assert forall c <- Trim(s) :: c in TrimLeft(s);
  }

  predicate Blank(s: string) { forall c <- s :: Space(c) }

  lemma {:induction false} TrimLeftDrops(a: string, s: string)
    requires Blank(a) && (s == "" || !Space(s[0]))
    ensures TrimLeft(a + s) == s
  {
    if a == "" {
      assert a + s == s;
    } else {
      assert a[0] in a && (a + s)[1..] == a[1..] + s;
      TrimLeftDrops(a[1..], s);
    }
  }

  lemma {:induction false} TrimRightDrops(s: string, b: string)
    requires Blank(b) && (s == "" || !Space(s[|s| - 1]))
    ensures TrimRight(s + b) == s
  {
    if b == "" {
      assert s + b == s;
    } else {
      var n := |b| - 1;
      assert b[n] in b && (s + b)[..|s| + n] == s + b[..n];
      TrimRightDrops(s, b[..n]);
    }
  }

  /** Trimming drops exactly the space around a text that neither begins nor ends with any. */
  lemma TrimKeepsTheInside(a: string, s: string, b: string)
    requires Blank(a) && Blank(b) && Trimmed(s)
    ensures Trim(a + s + b) == s
  {
    if s == "" {
      assert a + s + b == (a + b) + "" && Blank(a + b);
      TrimLeftDrops(a + b, "");
    } else {
      assert a + s + b == a + (s + b);
      TrimLeftDrops(a, s + b);
      TrimRightDrops(s, b);
    }
  }

  /** Of the ASCII characters, tab, line feed, vertical tab, form feed, carriage return and space. */
  lemma AsciiSpaces(c: char)
    requires c < '\U{0080}'
    ensures Space(c) <==> c == ' ' || '\t' <= c <= '\r'
  {
  }

  // ---- scopes ----

  predicate Valid(v: string) {
    || v in {"chat", "session:persistent", "admin", "workspace:*", "bridge:connect"}
    || ("workspace:" <= v && |v| > |"workspace:"|)
  }

  /** `Has`: the wildcard stands for every workspace scope. */
  predicate Has(scopes: seq<string>, required: string) {
    required in scopes || ("workspace:" <= required && "workspace:*" in scopes)
  }

  /** The four fixed scopes, the wildcard, and any named workspace; a workspace without a name is none. */
  lemma ValidScopes(w: string, v: string)
    ensures Valid("chat") && Valid("session:persistent") && Valid("admin") && Valid("bridge:connect")
    ensures Valid("workspace:*")
    ensures Valid("workspace:" + w) <==> w != ""
    ensures Valid(v) && v !in {"chat", "session:persistent", "admin", "bridge:connect"} ==> "workspace:" <= v
  {
    assert w == "" ==> "workspace:" + w == "workspace:";
    assert "workspace:" <= "workspace:*";
  }

  /** A scope grants itself, and the wildcard grants every workspace and nothing else. */
  lemma GrantsIff(scopes: seq<string>, required: string, w: string)
    ensures "workspace:*" !in scopes ==> (Has(scopes, required) <==> required in scopes)
    ensures "workspace:*" in scopes ==> Has(scopes, "workspace:" + w)
    ensures !("workspace:" <= required) ==> (Has(scopes, required) <==> required in scopes)
    ensures Has(["workspace:*"], required) <==> "workspace:" <= required
    ensures !Has(["workspace:*"], "admin") && !Has(["workspace:*"], "chat") && !Has(["admin"], "chat")
  {
    assert "workspace:" <= "workspace:" + w;
    assert "workspace:" <= "workspace:*";
  }

  /** The non-empty trimmed pieces, in order. */
  function Pieces(raw: seq<string>): seq<string> {
    if raw == [] then []
    else
      var v := Trim(raw[|raw| - 1]);
      Pieces(raw[..|raw| - 1]) + (if v == "" then [] else [v])
  }

  lemma PiecesSnoc(raw: seq<string>, p: string)
    ensures Pieces(raw + [p]) == Pieces(raw) + if Trim(p) == "" then [] else [Trim(p)]
  {
    assert (raw + [p])[..|raw|] == raw;
  }

  /** A blank piece is dropped, any other is trimmed and kept in its place. */
  lemma {:induction false} PiecesInOrder(a: seq<string>, b: seq<string>)
    ensures Pieces(a + b) == Pieces(a) + Pieces(b)
    ensures forall l, v, r | Blank(l) && Blank(r) && Trimmed(v) :: Pieces([l + v + r]) == if v == "" then [] else [v]
  {
    forall l, v, r | Blank(l) && Blank(r) && Trimmed(v)
      ensures Pieces([l + v + r]) == if v == "" then [] else [v]
    {
      TrimKeepsTheInside(l, v, r);
      assert [l + v + r][..0] == [];
    }
    if b == [] {
      assert a + b == a;
    } else {
      assert (a + b)[..|a + b| - 1] == a + b[..|b| - 1];
      PiecesInOrder(a, b[..|b| - 1]);
    }
  }

  function Listed(s: string): seq<string> { Pieces(Strings.Split(s, ',')) }

  datatype Parsed = Ok(scopes: seq<string>) | UnknownScope(scope: string)

  /** All of them, or the first that is not valid. */
  function Checked(vs: seq<string>): Parsed {
    if vs == [] then Ok([])
    else
      var n := |vs| - 1;
      match Checked(vs[..n])
      case UnknownScope(v) => UnknownScope(v)
      case Ok(_) => if Valid(vs[n]) then Ok(vs) else UnknownScope(vs[n])
  }

  lemma {:induction false} CheckedIs(vs: seq<string>)
    ensures Checked(vs).Ok? <==> forall v <- vs :: Valid(v)
    ensures Checked(vs).Ok? ==> Checked(vs).scopes == vs
    ensures forall v :: Checked(vs) == UnknownScope(v) <==> FirstInvalid(vs, v)
  {
    if vs != [] {
      var n := |vs| - 1;
      CheckedIs(vs[..n]);
      assert forall v <- vs :: v in vs[..n] || v == vs[n];
      forall v
        ensures Checked(vs) == UnknownScope(v) <==> FirstInvalid(vs, v)
      {
        FirstInvalidStep(vs, v);
      }
    }
  }

  predicate FirstInvalid(vs: seq<string>, v: string) {
    exists k :: 0 <= k < |vs| && vs[k] == v && !Valid(v) && forall j | 0 <= j < k :: Valid(vs[j])
  }

  lemma FirstInvalidStep(vs: seq<string>, v: string)
    requires vs != []
    ensures var n := |vs| - 1;
      FirstInvalid(vs, v) <==> FirstInvalid(vs[..n], v) || (vs[n] == v && !Valid(v) && forall w <- vs[..n] :: Valid(w))
  {
    var n := |vs| - 1;
    if FirstInvalid(vs[..n], v) {
      var k :| 0 <= k < n && vs[..n][k] == v && !Valid(v) && forall j | 0 <= j < k :: Valid(vs[..n][j]);
      assert vs[k] == v && forall j | 0 <= j < k :: vs[j] == vs[..n][j];
    }
    if FirstInvalid(vs, v) {
      var k :| 0 <= k < |vs| && vs[k] == v && !Valid(v) && forall j | 0 <= j < k :: Valid(vs[j]);
      if k < n { assert vs[..n][k] == v; }
    }
    if vs[n] == v && !Valid(v) && forall w <- vs[..n] :: Valid(w) {
      assert forall j | 0 <= j < n :: vs[j] in vs[..n];
    }
  }

  lemma {:induction false} CheckedPrefix(a: seq<string>, vs: seq<string>)
    requires a <= vs && Checked(a).UnknownScope?
    ensures Checked(vs) == Checked(a)
  {
    if |a| < |vs| {
      assert a <= vs[..|vs| - 1];
      CheckedPrefix(a, vs[..|vs| - 1]);
    } else {
      assert a == vs;
    }
  }

  function Parse(s: string): Parsed { if Trim(s) == "" then Ok([]) else Checked(Listed(s)) }

  /** `ParseScopes`: the pieces when all are valid, otherwise the first that is not. */
  method ParseScopes(s: string) returns (r: Parsed)
    ensures r == Parse(s)
  {
    if Trim(s) == "" { return Ok([]); }
    var raw := Strings.Split(s, ',');
    var out: seq<string> := [];
    for i := 0 to |raw|
      invariant out == Pieces(raw[..i]) && Checked(out) == Ok(out)
    {
      ParseStep(raw, i, out);
      var v := Trim(raw[i]);
      if v == "" { continue; }
      if !Valid(v) { return UnknownScope(v); }
      out := out + [v];
    }
    assert raw[..|raw|] == raw;
    r := Ok(out);
  }

  lemma ParseStep(raw: seq<string>, i: nat, out: seq<string>)
    requires i < |raw| && out == Pieces(raw[..i]) && Checked(out) == Ok(out)
    ensures var v := Trim(raw[i]);
      && (v == "" ==> Pieces(raw[..i + 1]) == out)
      && (v != "" && Valid(v) ==> Pieces(raw[..i + 1]) == out + [v] && Checked(out + [v]) == Ok(out + [v]))
      && (v != "" && !Valid(v) ==> Checked(Pieces(raw)) == UnknownScope(v))
  {
    var v := Trim(raw[i]);
    assert raw[..i + 1] == raw[..i] + [raw[i]];
    PiecesSnoc(raw[..i], raw[i]);
    if v != "" {
      CheckedSnoc(out, v);
      if !Valid(v) { StopsThere(raw, i + 1, out + [v]); }
    }
  }

  /** A scope refused among the first pieces is the one refused among all. */
  lemma StopsThere(raw: seq<string>, n: nat, vs: seq<string>)
    requires n <= |raw| && vs == Pieces(raw[..n]) && Checked(vs).UnknownScope?
    ensures Checked(Pieces(raw)) == Checked(vs)
  {
    PiecesPrefix(raw, n);
    CheckedPrefix(vs, Pieces(raw));
  }

  lemma CheckedSnoc(vs: seq<string>, v: string)
    requires Checked(vs) == Ok(vs)
    ensures Checked(vs + [v]) == if Valid(v) then Ok(vs + [v]) else UnknownScope(v)
  {
    assert (vs + [v])[..|vs|] == vs;
  }

  lemma {:induction false} PiecesPrefix(raw: seq<string>, n: nat)
    requires n <= |raw|
    ensures Pieces(raw[..n]) <= Pieces(raw)
  {
    if n == |raw| {
      assert raw[..n] == raw;
    } else {
      PiecesPrefix(raw[..|raw| - 1], n);
      assert raw[..|raw| - 1][..n] == raw[..n];
    }
  }

  // ---- in-place deduplication ----

  function Dedup(s: seq<string>): seq<string> {
    if s == [] then []
    else
      var d := Dedup(s[..|s| - 1]);
      if s[|s| - 1] in d then d else d + [s[|s| - 1]]
  }

  /** The loop of `token create --bridge`: `dedup` shares the array it ranges over. */
  method DedupInPlace(a: array<string>) returns (n: nat)
    modifies a
    ensures n <= a.Length && a[..n] == Dedup(old(a[..]))
  {
    var seen: set<string> := {};
    n := 0;
    for i := 0 to a.Length
      invariant n <= i
      invariant a[..n] == Dedup(old(a[..])[..i])
      invariant forall v :: v in seen <==> v in a[..n]
      invariant forall k | i <= k < a.Length :: a[k] == old(a[k])
    {
      assert old(a[..])[..i + 1][..i] == old(a[..])[..i];
      var s := a[i];
      if s !in seen {
        seen := seen + {s};
        a[n] := s;
        n := n + 1;
        assert a[..n] == Dedup(old(a[..])[..i]) + [s];
      }
    }
    assert old(a[..])[..a.Length] == old(a[..]);
  }

  /** The position of the first occurrence. */
  function First(s: seq<string>, v: string): nat
    requires v in s
    ensures First(s, v) < |s| && s[First(s, v)] == v
    ensures forall k | 0 <= k < First(s, v) :: s[k] != v
  {
    if s[0] == v then 0 else 1 + First(s[1..], v)
  }

  lemma FirstIn(s: seq<string>, t: seq<string>, v: string)
    requires v in s
    ensures v in s + t && First(s + t, v) == First(s, v)
  {
    var k := First(s, v);
    assert (s + t)[k] == v && forall j | 0 <= j < k :: (s + t)[j] == s[j];
  }

  /** Deduplication keeps one of each, in the order of first occurrence, and changes no verdict. */
  lemma {:induction false} DedupKeepsFirsts(s: seq<string>)
    ensures forall v :: v in Dedup(s) <==> v in s
    ensures forall i, j | 0 <= i < j < |Dedup(s)| :: First(s, Dedup(s)[i]) < First(s, Dedup(s)[j])
  {
    if s != [] {
      var n := |s| - 1;
      DedupKeepsFirsts(s[..n]);
      assert s == s[..n] + [s[n]];
      forall v | v in s[..n]
        ensures First(s, v) == First(s[..n], v)
      {
        FirstIn(s[..n], [s[n]], v);
      }
      var d := Dedup(s[..n]);
      assert forall i | 0 <= i < |d| :: d[i] in s[..n];
      if s[n] !in d {
        assert forall k | 0 <= k < n :: s[k] == s[..n][k] && s[k] in d;
        assert First(s, s[n]) == n;
      }
    }
  }

  lemma DedupKeepsHas(s: seq<string>, required: string)
    ensures Has(Dedup(s), required) == Has(s, required)
  {
    DedupKeepsFirsts(s);
  }

  // ---- the stored column ----

  /** A scope as `ParseScopes` yields it. */
  predicate Clean(v: string) { v != "" && Trimmed(v) && Strings.Lacks(v, ',') }

  lemma {:induction false} PiecesAreClean(raw: seq<string>)
    requires forall p <- raw :: Strings.Lacks(p, ',')
    ensures forall v <- Pieces(raw) :: Clean(v)
  {
    if raw != [] {
      var p := raw[|raw| - 1];
      PiecesAreClean(raw[..|raw| - 1]);
      TrimIs(p);
      assert p in raw;
      assert ',' !in Trim(p);
    }
  }

  lemma {:induction false} PiecesOfClean(vs: seq<string>)
    requires forall v <- vs :: Clean(v)
    ensures Pieces(vs) == vs
  {
    if vs != [] {
      var n := |vs| - 1;
      assert vs[n] in vs && forall v <- vs[..n] :: v in vs;
      PiecesOfClean(vs[..n]);
      assert Trim(vs[n]) == vs[n] by { TrimIs(vs[n]); }
      assert vs == vs[..n] + [vs[n]];
      PiecesSnoc(vs[..n], vs[n]);
    }
  }

  function ParseScopesCSV(s: string): seq<string> { if s == "" then [] else Listed(s) }

  /** Storing a parsed list and reading it back gives the list. */
  lemma ColumnRoundTrip(vs: seq<string>)
    requires vs != [] && forall v <- vs :: Clean(v)
    ensures ParseScopesCSV(Strings.Join(vs, ',')) == vs
  {
    Strings.SplitJoin(vs, ',');
    PiecesOfClean(vs);
    assert vs[0] in vs;
  }

  lemma ListedIsClean(s: string)
    ensures forall v <- Listed(s) :: Clean(v)
  {
    Strings.SplitLacks(s, ',');
    PiecesAreClean(Strings.Split(s, ','));
  }

  lemma {:induction false} TrimRightBlank(s: string)
    requires s != "" && !Space(s[0])
    ensures TrimRight(s) != ""
  {
    if |s| > 1 && Space(s[|s| - 1]) { TrimRightBlank(s[..|s| - 1]); }
  }

  /** A list of clean scopes, joined, is accepted or refused like the list, and listed as it. */
  lemma JoinedParses(vs: seq<string>)
    requires vs != [] && forall v <- vs :: Clean(v)
    ensures Listed(Strings.Join(vs, ',')) == vs && Parse(Strings.Join(vs, ',')) == Checked(vs)
  {
    Strings.SplitJoin(vs, ',');
    PiecesOfClean(vs);
    assert vs[0] in vs && vs[0] <= Strings.Join(vs, ',');
    TrimRightBlank(Strings.Join(vs, ','));
  }

  /** What `token create` does with a non-empty list of scopes, with or without deduplication: the
      second `ParseScopes` accepts the joined string exactly when the first accepted the list, and
      lists the deduplicated scopes again; the column reads back as that list; and every verdict is
      that of the original list. */
  lemma CreatedTokenHasTheScopes(s: string, required: string)
    requires Listed(s) != []
    ensures var d := Dedup(Listed(s));
      && Listed(Strings.Join(d, ',')) == d && ParseScopesCSV(Strings.Join(d, ',')) == d
      && Parse(Strings.Join(d, ',')) == (if Checked(Listed(s)).Ok? then Ok(d) else Checked(Listed(s)))
      && ParseScopesCSV(Strings.Join(Listed(s), ',')) == Listed(s)
      && Has(d, required) == Has(Listed(s), required)
  {
    ListedIsClean(s);
    DedupKeepsFirsts(Listed(s));
    assert Listed(s)[0] in Dedup(Listed(s));
    JoinedParses(Dedup(Listed(s)));
    DedupKeepsChecked(Listed(s));
    ColumnRoundTrip(Dedup(Listed(s)));
    ColumnRoundTrip(Listed(s));
  }

  /** The first scope refused is the same with duplicates and without. */
  lemma {:induction false} DedupKeepsChecked(vs: seq<string>)
    ensures Checked(Dedup(vs)) == if Checked(vs).Ok? then Ok(Dedup(vs)) else Checked(vs)
  {
    if vs != [] {
      var n := |vs| - 1;
      DedupKeepsChecked(vs[..n]);
      CheckedIs(vs[..n]);
      DedupKeepsFirsts(vs[..n]);
      var d := Dedup(vs[..n]);
      if vs[n] !in d {
        assert (d + [vs[n]])[..|d|] == d;
      }
    }
  }
}
