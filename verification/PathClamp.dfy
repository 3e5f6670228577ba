/** The lexical part of the daemon's `resolve`: the denylist over raw segments, the clamp by
    cleaning a rooted path, and the `isUnder` re-check. Symbolic links are not modelled.

    `filepath.Clean`, `Join` and `Rel` are given by what they document for Unix paths; glob matching
    of one segment is the parameter `glob`. */
module PathClamp {
  import Strings

  // ---- strings and segments ----

  function TrimSlash(s: string): string { if s != "" && s[0] == '/' then s[1..] else s }

  function TrimTrailingSlash(s: string): string { if s != "" && s[|s| - 1] == '/' then s[..|s| - 1] else s }

  predicate HasPrefix(s: string, p: string) { p <= s }

  function Split(s: string): (r: seq<string>)
    ensures |r| > 0
  {
    Strings.Split(s, '/')
  }

  function JoinSegs(segs: seq<string>): string { Strings.Join(segs, '/') }

  predicate NoSlash(s: string) { Strings.Lacks(s, '/') }

  /** A segment that survives cleaning. */
  predicate Name(s: string) { s != "" && s != "." && s != ".." && NoSlash(s) }

  predicate Names(segs: seq<string>) { forall s <- segs :: Name(s) }

  // ---- cleaning ----

  function Step(stack: seq<string>, seg: string): seq<string> {
    if seg == "" || seg == "." then stack
    else if seg == ".." then (if stack == [] then [] else stack[..|stack| - 1])
    else stack + [seg]
  }

  /** What cleaning keeps of the segments after a leading slash. */
  function CleanSegs(raw: seq<string>): seq<string> {
    if raw == [] then [] else Step(CleanSegs(raw[..|raw| - 1]), raw[|raw| - 1])
  }

  predicate Rooted(path: string) { path != "" && path[0] == '/' }

  function Segs(path: string): seq<string>
    requires Rooted(path)
  {
    CleanSegs(Split(path[1..]))
  }

  /** `filepath.Clean` of a rooted path. */
  function Clean(path: string): string
    requires Rooted(path)
  {
    "/" + JoinSegs(Segs(path))
  }

  /** `filepath.Join(root, path)`. */
  function Join(root: string, path: string): string
    requires Rooted(root)
  {
    Clean(root + "/" + path)
  }

  function CommonPrefix(a: seq<string>, b: seq<string>): nat {
    if a == [] || b == [] || a[0] != b[0] then 0 else 1 + CommonPrefix(a[1..], b[1..])
  }

  lemma {:induction false} CommonPrefixBounds(a: seq<string>, b: seq<string>)
    ensures CommonPrefix(a, b) <= |a| && CommonPrefix(a, b) <= |b|
  {
    if a != [] && b != [] { CommonPrefixBounds(a[1..], b[1..]); }
  }

  /** `filepath.Rel(base, target)` of two rooted paths. */
  function Rel(base: string, target: string): string
    requires Rooted(base) && Rooted(target)
  {
    var (b, t) := (Segs(base), Segs(target));
    CommonPrefixBounds(b, t);
    var n := CommonPrefix(b, t);
    var out := seq(|b| - n, _ => "..") + t[n..];
    if out == [] then "." else JoinSegs(out)
  }

  predicate IsUnder(child: string, parent: string)
    requires Rooted(child) && Rooted(parent)
  {
    var rp := Rel(parent, child);
    rp == "." || (!HasPrefix(rp, "..") && !Rooted(rp))
  }

  // ---- the denylist ----

  type Glob = (string, string) -> bool

  predicate Denies(glob: Glob, pattern: string, seg: string) { glob(TrimTrailingSlash(pattern), seg) }

  predicate Matches(glob: Glob, patterns: seq<string>, rel: string) {
    && TrimSlash(rel) != "" && TrimSlash(rel) != "."
    && exists pat <- patterns, seg <- Split(TrimSlash(rel)) :: Denies(glob, pat, seg)
  }

  /** `IgnoreList.Match`: true exactly when some pattern matches some raw segment. */
  method Match(glob: Glob, patterns: seq<string>, rel: string) returns (hit: bool)
    ensures hit == Matches(glob, patterns, rel)
  {
    var r := TrimSlash(rel);
    if r == "" || r == "." { return false; }
    var parts := Split(r);
    for i := 0 to |patterns|
      invariant forall k | 0 <= k < i :: forall seg <- parts :: !Denies(glob, patterns[k], seg)
    {
      var p := TrimTrailingSlash(patterns[i]);
      for j := 0 to |parts|
        invariant forall k | 0 <= k < j :: !Denies(glob, patterns[i], parts[k])
      {
        if glob(p, parts[j]) {
          assert Denies(glob, patterns[i], parts[j]);
          return true;
        }
      }
    }
    hit := false;
  }

  datatype Resolved = Accepted(abs: string) | DeniedByIgnore | OutOfRoot

  function Resolve(root: string, glob: Glob, patterns: seq<string>, path: string): Resolved
    requires Rooted(root)
  {
    var rel := TrimSlash(path);
    if Matches(glob, patterns, rel) then DeniedByIgnore
    else
      var abs := Join(root, Clean("/" + rel));
      if !IsUnder(abs, root) then OutOfRoot else Accepted(abs)
  }

  // ---- cleaning keeps a subsequence of names ----

  predicate Subsequence(a: seq<string>, b: seq<string>)
    decreases |b|
  {
    a == [] ||
    (b != [] &&
      var b' := b[..|b| - 1];
      ((a[|a| - 1] == b[|b| - 1] && Subsequence(a[..|a| - 1], b')) || Subsequence(a, b')))
  }

  lemma {:induction false} SubsequenceOfPrefix(a: seq<string>, b: seq<string>)
    requires a != [] && Subsequence(a, b)
    ensures Subsequence(a[..|a| - 1], b)
    decreases |b|
  {
    var b' := b[..|b| - 1];
    if Subsequence(a, b') {
      SubsequenceOfPrefix(a, b');
    }
  }

  lemma {:induction false} SubsequenceContains(a: seq<string>, b: seq<string>)
    requires Subsequence(a, b)
    ensures forall s <- a :: s in b
    decreases |b|
  {
    if a != [] {
      var b' := b[..|b| - 1];
      if Subsequence(a, b') {
        SubsequenceContains(a, b');
      } else {
        SubsequenceContains(a[..|a| - 1], b');
        assert a == a[..|a| - 1] + [b[|b| - 1]];
      }
    }
  }

  lemma {:induction false} CleanIsSubsequence(raw: seq<string>)
    requires forall s <- raw :: NoSlash(s)
    ensures Names(CleanSegs(raw)) && Subsequence(CleanSegs(raw), raw)
  {
    if raw != [] {
      var n := |raw| - 1;
      CleanIsSubsequence(raw[..n]);
      var stack := CleanSegs(raw[..n]);
      if raw[n] == ".." && stack != [] {
        SubsequenceOfPrefix(stack, raw[..n]);
      } else if Step(stack, raw[n]) != stack {
        assert (stack + [raw[n]])[..|stack|] == stack;
      }
    }
  }

  lemma {:induction false} CleanAppend(raw: seq<string>, names: seq<string>)
    requires Names(names)
    ensures CleanSegs(raw + names) == CleanSegs(raw) + names
  {
    if names == [] {
      assert raw + names == raw;
    } else {
      var n := |names| - 1;
      assert (raw + names)[..|raw| + n] == raw + names[..n];
      assert names[n] in names;
      CleanAppend(raw, names[..n]);
      assert CleanSegs(raw) + names[..n] + [names[n]] == CleanSegs(raw) + names;
    }
  }

  lemma CleanSnoc(raw: seq<string>, seg: string)
    ensures CleanSegs(raw + [seg]) == Step(CleanSegs(raw), seg)
  {
    assert (raw + [seg])[..|raw|] == raw;
  }

  lemma {:induction false} CleanCongruent(a: seq<string>, a': seq<string>, b: seq<string>)
    requires CleanSegs(a) == CleanSegs(a')
    ensures CleanSegs(a + b) == CleanSegs(a' + b)
    decreases |b|
  {
    if b == [] {
      assert a + b == a && a' + b == a';
    } else {
      CleanSnoc(a, b[0]);
      CleanSnoc(a', b[0]);
      CleanCongruent(a + [b[0]], a' + [b[0]], b[1..]);
      assert a + b == (a + [b[0]]) + b[1..] && a' + b == (a' + [b[0]]) + b[1..];
    }
  }

  /** What cleaning means, segment by segment: an empty segment and "." go wherever they stand, a name
      goes with a ".." right after it, and a ".." at the root goes alone. Names by themselves stay. */
  lemma CleanRewrites(a: seq<string>, x: string, b: seq<string>)
    ensures CleanSegs(a + [""] + b) == CleanSegs(a + b) && CleanSegs(a + ["."] + b) == CleanSegs(a + b)
    ensures x != "" && x != "." && x != ".." ==> CleanSegs(a + [x, ".."] + b) == CleanSegs(a + b)
    ensures CleanSegs([".."] + b) == CleanSegs(b)
    ensures Names(b) ==> CleanSegs(b) == b
  {
    CleanSnoc(a, "");
    CleanSnoc(a, ".");
    CleanCongruent(a + [""], a, b);
    CleanCongruent(a + ["."], a, b);
    if x != "" && x != "." && x != ".." {
      CleanSnoc(a, x);
      CleanSnoc(a + [x], "..");
      assert (CleanSegs(a) + [x])[..|CleanSegs(a)|] == CleanSegs(a);
      assert a + [x, ".."] == (a + [x]) + [".."];
      CleanCongruent(a + [x, ".."], a, b);
    }
    CleanSnoc([], "..");
    assert [] + [".."] == [".."];
    CleanCongruent([".."], [], b);
    assert [] + b == b;
    if Names(b) { CleanAppend([], b); }
  }

  /** A pattern's trailing slash does not count. */
  lemma TrailingSlashIsIgnored(glob: Glob, pattern: string, seg: string)
    requires pattern == "" || pattern[|pattern| - 1] != '/'
    ensures Denies(glob, pattern, seg) == glob(pattern, seg)
    ensures Denies(glob, pattern + "/", seg) == glob(pattern, seg)
  {
    assert (pattern + "/")[..|pattern|] == pattern;
  }

  // ---- the clamp ----

  /** A rooted path as `Clean` leaves it. */
  predicate CleanRoot(root: string) { Rooted(root) && Clean(root) == root }

  lemma SegsOfClean(names: seq<string>)
    requires Names(names)
    ensures CleanSegs(Split(JoinSegs(names))) == names
  {
    if names == [] {
      assert Split("") == [""] && CleanSegs([""]) == Step(CleanSegs([]), "");
    } else {
      Strings.SplitJoin(names, '/');
      CleanAppend([], names);
      assert [] + names == names;
    }
  }

  /** Joining a cleaned rooted path to the root appends its segments. */
  lemma JoinAppends(root: string, names: seq<string>)
    requires Rooted(root) && Names(names)
    ensures Join(root, "/" + JoinSegs(names)) == "/" + JoinSegs(Segs(root) + names)
  {
    var r := root[1..];
    var tail := "/" + JoinSegs(names);
    assert (root + "/" + tail)[1..] == r + "/" + tail;
    Strings.SplitAt(r, tail, '/');
    assert tail == "" + "/" + JoinSegs(names);
    Strings.SplitAt("", JoinSegs(names), '/');
    var parts := Split(r) + Split("");
    assert Split(r + "/" + tail) == parts + Split(JoinSegs(names));
    assert parts[..|parts| - 1] == Split(r) && CleanSegs(parts) == Segs(root);
    if names == [] {
      assert parts + [""] == parts + Split("");
      assert (parts + [""])[..|parts|] == parts;
      assert Segs(root) + names == Segs(root);
    } else {
      Strings.SplitJoin(names, '/');
      CleanAppend(parts, names);
    }
  }

  lemma {:induction false} CommonPrefixOfExtension(a: seq<string>, b: seq<string>)
    ensures CommonPrefix(a, a + b) == |a|
  {
    if a != [] {
      assert (a + b)[1..] == a[1..] + b;
      CommonPrefixOfExtension(a[1..], b);
    }
  }

  lemma RelOfExtension(root: string, child: string, names: seq<string>)
    requires Rooted(root) && Rooted(child) && Segs(child) == Segs(root) + names
    ensures Rel(root, child) == if names == [] then "." else JoinSegs(names)
  {
    CommonPrefixOfExtension(Segs(root), names);
    assert (Segs(root) + names)[|Segs(root)|..] == names;
    assert seq(0, _ => "..") + names == names;
  }

  lemma PrefixOfJoin(names: seq<string>)
    requires Names(names) && names != []
    ensures HasPrefix(JoinSegs(names), "..") == HasPrefix(names[0], "..")
    ensures !Rooted(JoinSegs(names)) && JoinSegs(names) != "."
  {
    assert names[0] in names;
    assert names[0] <= JoinSegs(names);
    if |names| > 1 {
      assert JoinSegs(names)[|names[0]|] == '/';
    }
    assert names[0][0] in names[0];
  }

  /** What cleaning keeps of a requested path. */
  function Requested(path: string): seq<string> { CleanSegs(Split(TrimSlash(path))) }

  lemma RequestedIsClean(path: string)
    ensures Names(Requested(path)) && Subsequence(Requested(path), Split(TrimSlash(path)))
  {
    Strings.SplitLacks(TrimSlash(path), '/');
    CleanIsSubsequence(Split(TrimSlash(path)));
  }

  lemma {:induction false} SegsAreNames(root: string)
    requires Rooted(root)
    ensures Names(Segs(root))
  {
    Strings.SplitLacks(root[1..], '/');
    CleanIsSubsequence(Split(root[1..]));
  }

  /** The re-check refuses exactly the paths whose first cleaned segment begins with "..", which
      never escape: cleaning has already clamped the path. */
  lemma IsUnderRejectsExactly(root: string, path: string)
    requires CleanRoot(root)
    ensures var abs := Join(root, Clean("/" + TrimSlash(path)));
      && abs == "/" + JoinSegs(Segs(root) + Requested(path))
      && Segs(abs) == Segs(root) + Requested(path)
      && (IsUnder(abs, root) <==> Requested(path) == [] || !HasPrefix(Requested(path)[0], ".."))
  {
    var rel := TrimSlash(path);
    var names := Requested(path);
    assert ("/" + rel)[1..] == rel;
    RequestedIsClean(path);
    SegsAreNames(root);
    JoinAppends(root, names);
    var abs := Join(root, Clean("/" + rel));
    assert abs[1..] == JoinSegs(Segs(root) + names);
    SegsOfClean(Segs(root) + names);
    RelOfExtension(root, abs, names);
    if names != [] { PrefixOfJoin(names); }
  }

  /** Such a refusal is never of an escape: "..foo" names an entry of the root itself, and is out of
      root all the same. */
  lemma DotDotNameIsRefused(root: string, glob: Glob)
    requires CleanRoot(root)
    ensures Requested("..foo") == ["..foo"] && Resolve(root, glob, [], "..foo") == OutOfRoot
  {
    assert TrimSlash("..foo") == "..foo";
    Strings.SplitOne("..foo", '/');
    assert ["..foo"][..0] == [];
    IsUnderRejectsExactly(root, "..foo");
    assert ".." <= "..foo";
  }

  /** Every segment kept by cleaning was looked at by the denylist. */
  lemma DenylistSeesRequested(glob: Glob, patterns: seq<string>, path: string, pat: string, seg: string)
    requires !Matches(glob, patterns, TrimSlash(path))
    requires pat in patterns && seg in Requested(path)
    ensures !Denies(glob, pat, seg)
  {
    RequestedIsClean(path);
    var rel := TrimSlash(path);
    SubsequenceContains(Requested(path), Split(rel));
    assert Name(seg);
    if rel != "" && rel[0] == '/' {
      assert Split(rel) == [""] + Split(rel[1..]);
    }
    assert seg in Split(TrimSlash(rel));
    if TrimSlash(rel) == "." {
      Strings.SplitOne(".", '/');
    }
  }

  /** The whole of it. An accepted path is the root followed by names that are a subsequence of the
      requested segments, none of which a deny pattern matches; a path is refused as out of root
      exactly when it is not denied and its first kept segment begins with "..". */
  lemma ResolveClamps(root: string, glob: Glob, patterns: seq<string>, path: string)
    requires CleanRoot(root)
    ensures var names := Requested(path);
      match Resolve(root, glob, patterns, path)
      case DeniedByIgnore => Matches(glob, patterns, TrimSlash(path))
      case OutOfRoot => !Matches(glob, patterns, TrimSlash(path)) && names != [] && HasPrefix(names[0], "..")
      case Accepted(abs) =>
        && abs == Under(root, names)
        && Names(names) && Subsequence(names, Split(TrimSlash(path)))
        && (forall pat <- patterns, seg <- names :: !Denies(glob, pat, seg))
        && (names == [] || !HasPrefix(names[0], ".."))
  {
    IsUnderRejectsExactly(root, path);
    RequestedIsClean(path);
    var names := Requested(path);
    AbsoluteForm(root, names);
    if !Matches(glob, patterns, TrimSlash(path)) {
      forall pat, seg | pat in patterns && seg in names
        ensures !Denies(glob, pat, seg)
      {
        DenylistSeesRequested(glob, patterns, path, pat, seg);
      }
    }
  }

  /** A path of plain names, with a leading slash or without, is denied exactly if a pattern matches one
      of them, is refused if the first begins with "..", and is otherwise that path under the root. */
  lemma NamesResolve(root: string, glob: Glob, patterns: seq<string>, names: seq<string>)
    requires CleanRoot(root) && Names(names)
    ensures Resolve(root, glob, patterns, "/" + JoinSegs(names)) == Resolve(root, glob, patterns, JoinSegs(names))
    ensures Resolve(root, glob, patterns, JoinSegs(names)) ==
      if exists pat <- patterns, seg <- names :: Denies(glob, pat, seg) then DeniedByIgnore
      else if names != [] && ".." <= names[0] then OutOfRoot
      else Accepted(Under(root, names))
  {
    var path := JoinSegs(names);
    if names != [] {
      PrefixOfJoin(names);
      assert names[0] in names && names[0] <= path;
      Strings.SplitJoin(names, '/');
    }
    assert TrimSlash("/" + path) == path && TrimSlash(path) == path;
    SegsOfClean(names);
    ResolveClamps(root, glob, patterns, path);
    AbsoluteForm(root, names);
  }

  /** The root itself is accepted under each of its names, whatever the patterns. */
  lemma RootIsAccepted(root: string, glob: Glob, patterns: seq<string>)
    requires CleanRoot(root)
    ensures Resolve(root, glob, patterns, "") == Resolve(root, glob, patterns, "/") == Accepted(root)
    ensures Resolve(root, glob, patterns, ".") == Resolve(root, glob, patterns, "/.") == Accepted(root)
  {
    assert TrimSlash("/") == "" && TrimSlash("/.") == ".";
    RootNameIsAccepted(root, glob, patterns, "");
    RootNameIsAccepted(root, glob, patterns, "/");
    RootNameIsAccepted(root, glob, patterns, ".");
    RootNameIsAccepted(root, glob, patterns, "/.");
  }

  lemma RootNameIsAccepted(root: string, glob: Glob, patterns: seq<string>, path: string)
    requires CleanRoot(root) && (TrimSlash(path) == "" || TrimSlash(path) == ".")
    ensures Resolve(root, glob, patterns, path) == Accepted(root)
  {
    var rel := TrimSlash(path);
    Strings.SplitOne(rel, '/');
    CleanSnoc([], rel);
    assert [] + [rel] == [rel];
    ResolveClamps(root, glob, patterns, path);
  }

  function Under(root: string, names: seq<string>): string {
    if names == [] then root else if root == "/" then "/" + JoinSegs(names) else root + "/" + JoinSegs(names)
  }

  lemma AbsoluteForm(root: string, names: seq<string>)
    requires CleanRoot(root)
    ensures "/" + JoinSegs(Segs(root) + names) == Under(root, names)
  {
    SegsAreNames(root);
    Strings.JoinConcat(Segs(root), names, '/');
    assert root == "/" + JoinSegs(Segs(root));
    if Segs(root) != [] {
      assert Segs(root)[0] in Segs(root);
      assert |root| > 1;
    }
  }
}
