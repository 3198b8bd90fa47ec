/**
 Overlap of file scopes (_scope_overlaps in workflow_preflight.py). A scope is a file, a
 directory (written with a trailing slash), or either of these with glob characters.
 */
module Scopes {
  /** What a bracket expression admits is left open: its text, and the character tried. */
  type Brackets = (string, char) -> bool

  predicate GlobChar(c: char) {
    c == '*' || c == '?' || c == '['
  }

  predicate HasGlob(s: string) {
    exists i | 0 <= i < |s| :: GlobChar(s[i])
  }

  predicate IsDir(s: string) {
    s != "" && s[|s| - 1] == '/'
  }

  /** Without the slashes at the end. */
  function Base(s: string): (b: string)
    ensures b <= s && !IsDir(b)
  {
    if IsDir(s) then Base(s[..|s| - 1]) else s
  }

  /** The part before the first occurrence of a character. */
  function Before(s: string, c: char): string {
    if s == "" || s[0] == c then "" else [s[0]] + Before(s[1..], c)
  }

  function LiteralPrefix(s: string): string {
    Before(Before(Before(s, '*'), '?'), '[')
  }

  // ---------------------------------------------------------------- fnmatch.fnmatchcase

  function SkipTo(s: string, j: nat): (k: nat)
    requires j <= |s|
    ensures j <= k <= |s|
    decreases |s| - j
  {
    if j == |s| || s[j] == ']' then j else SkipTo(s, j + 1)
  }

  /** Index of the bracket that closes the one at 0, or |pat| when there is none. */
  function Closing(pat: string): (k: nat)
    requires pat != ""
    ensures 1 <= k <= |pat|
  {
    var j := if |pat| > 1 && pat[1] == '!' then 2 else 1;
    SkipTo(pat, if j < |pat| && pat[j] == ']' then j + 1 else j)
  }

  predicate Match(name: string, pat: string, cls: Brackets)
    decreases |pat| + |name|
  {
    if pat == "" then name == ""
    else if pat[0] == '*' then Match(name, pat[1..], cls) || (name != "" && Match(name[1..], pat, cls))
    else if name == "" then false
    else if pat[0] == '?' then Match(name[1..], pat[1..], cls)
    else if pat[0] == '[' && Closing(pat) < |pat| then
      cls(pat[1..Closing(pat)], name[0]) && Match(name[1..], pat[Closing(pat) + 1..], cls)
    else name[0] == pat[0] && Match(name[1..], pat[1..], cls)
  }

  // ---------------------------------------------------------------- _scope_overlaps

  predicate ScopeOverlaps(left: string, right: string, cls: Brackets) {
    var (l, r) := (Base(left), Base(right));
    var (p, q) := (LiteralPrefix(left), LiteralPrefix(right));
    || left == right
    || (IsDir(left) && (r == l || l + "/" <= r))
    || (IsDir(right) && (l == r || r + "/" <= l))
    || (HasGlob(left) && Match(r, left, cls))
    || (HasGlob(right) && Match(l, right, cls))
    || ((HasGlob(left) || HasGlob(right)) && (q <= p || p <= q))
  }

  /** The form _path gives every scope: a non-empty name, and at most one slash after it. */
  predicate Normal(s: string) {
    Base(s) != "" && (s == Base(s) || s == Base(s) + "/")
  }

  /** The paths a scope speaks about: what it names and, for a directory, everything below that. */
  predicate Covers(scope: string, path: string, cls: Brackets) {
    exists k | 0 <= k <= |path| && (k == |path| || (IsDir(scope) && path[k] == '/')) ::
      Match(path[..k], Base(scope), cls)
  }

  // ---------------------------------------------------------------- literal prefixes

  lemma Comparable(a: string, b: string, s: string)
    requires a <= s && b <= s
    ensures a <= b || b <= a
  {
    if |a| <= |b| {
      assert b[..|a|] == s[..|a|] == a;
    } else {
      assert a[..|b|] == s[..|b|] == b;
    }
  }

  lemma {:induction false} LiteralPrefixStep(s: string)
    ensures LiteralPrefix(s) <= s
    ensures LiteralPrefix(s) == if s == "" || GlobChar(s[0]) then "" else [s[0]] + LiteralPrefix(s[1..])
    ensures !HasGlob(s) ==> LiteralPrefix(s) == s
  {
    if s != "" && !GlobChar(s[0]) {
      LiteralPrefixStep(s[1..]);
      var a := Before(s, '*');
      assert a[1..] == Before(s[1..], '*');
      var b := Before(a, '?');
      assert b[1..] == Before(a[1..], '?');
      assert !HasGlob(s) ==> !HasGlob(s[1..]);
      assert s == [s[0]] + s[1..];
    } else if s != "" {
      assert GlobChar(s[0]);
      assert HasGlob(s);
    }
  }

  lemma {:induction false} MatchStartsWithPrefix(name: string, pat: string, cls: Brackets)
    requires Match(name, pat, cls)
    ensures LiteralPrefix(pat) <= name
    decreases |pat| + |name|
  {
    LiteralPrefixStep(pat);
    if pat != "" && !GlobChar(pat[0]) {
      MatchStartsWithPrefix(name[1..], pat[1..], cls);
      assert name == [name[0]] + name[1..];
    }
  }

  lemma {:induction false} LiteralMatch(name: string, pat: string, cls: Brackets)
    requires !HasGlob(pat)
    ensures Match(name, pat, cls) <==> name == pat
  {
    if pat != "" {
      assert !GlobChar(pat[0]);
      assert !HasGlob(pat[1..]);
      if name != "" {
        LiteralMatch(name[1..], pat[1..], cls);
        assert name == [name[0]] + name[1..] && pat == [pat[0]] + pat[1..];
      }
    }
  }

  lemma {:induction false} PrefixOfSlashed(s: string)
    requires HasGlob(s)
    ensures HasGlob(s + "/") && LiteralPrefix(s + "/") == LiteralPrefix(s)
  {
    LiteralPrefixStep(s);
    LiteralPrefixStep(s + "/");
    assert (s + "/")[1..] == s[1..] + "/";
    var i :| 0 <= i < |s| && GlobChar(s[i]);
    assert GlobChar((s + "/")[i]);
    if !GlobChar(s[0]) {
      assert GlobChar(s[1..][i - 1]);
      PrefixOfSlashed(s[1..]);
    }
  }

  // ---------------------------------------------------------------- the theorems

  ghost predicate PrefixesComparable(left: string, right: string) {
    LiteralPrefix(left) <= LiteralPrefix(right) || LiteralPrefix(right) <= LiteralPrefix(left)
  }

  lemma PrefixesOfPrefix(a: string, b: string)
    requires a <= b
    ensures PrefixesComparable(a, b)
  {
    LiteralPrefixStep(a);
    LiteralPrefixStep(b);
    var p := LiteralPrefix(a);
    assert p == a[..|p|] == b[..|p|];
    Comparable(p, LiteralPrefix(b), b);
  }

  lemma UnderDirectory(left: string, right: string)
    requires Normal(left) && Normal(right) && IsDir(left)
    requires Base(right) == Base(left) || Base(left) + "/" <= Base(right)
    ensures PrefixesComparable(left, right)
  {
    OneExtendsTheOther(left, right);
    if left <= right {
      PrefixesOfPrefix(left, right);
    } else {
      PrefixesOfPrefix(right, left);
    }
  }

  lemma OneExtendsTheOther(left: string, right: string)
    requires Normal(left) && Normal(right) && IsDir(left)
    requires Base(right) == Base(left) || Base(left) + "/" <= Base(right)
    ensures left <= right || right <= left
  {
  }

  lemma MatchedByGlob(left: string, right: string, cls: Brackets)
    requires Match(Base(right), left, cls)
    ensures PrefixesComparable(left, right)
  {
    MatchStartsWithPrefix(Base(right), left, cls);
    LiteralPrefixStep(right);
    Comparable(LiteralPrefix(left), LiteralPrefix(right), right);
  }

  /** As soon as one scope is a glob, the answer is exactly that the literal prefixes are comparable. */
  lemma GlobOverlapIsPrefixComparison(left: string, right: string, cls: Brackets)
    requires Normal(left) && Normal(right) && (HasGlob(left) || HasGlob(right))
    ensures ScopeOverlaps(left, right, cls) <==> PrefixesComparable(left, right)
  {
    var (l, r) := (Base(left), Base(right));
    if IsDir(left) && (r == l || l + "/" <= r) {
      UnderDirectory(left, right);
    } else if IsDir(right) && (l == r || r + "/" <= l) {
      UnderDirectory(right, left);
    } else if HasGlob(left) && Match(r, left, cls) {
      MatchedByGlob(left, right, cls);
    } else if HasGlob(right) && Match(l, right, cls) {
      MatchedByGlob(right, left, cls);
    }
  }

  /** What a glob-free scope covers. */
  lemma LiteralCovers(scope: string, path: string, cls: Brackets)
    requires !HasGlob(scope)
    ensures Covers(scope, path, cls) <==> path == Base(scope) || (IsDir(scope) && Base(scope) + "/" <= path)
  {
    var b := Base(scope);
    assert !HasGlob(b) by {
      assert forall i | 0 <= i < |b| :: b[i] == scope[i];
    }
    forall k | 0 <= k <= |path| ensures Match(path[..k], b, cls) <==> path[..k] == b {
      LiteralMatch(path[..k], b, cls);
    }
    assert path[..|path|] == path;
    if IsDir(scope) && b + "/" <= path {
      assert path[..|b|] == b && path[|b|] == '/';
    }
    if k :| 0 <= k <= |path| && (k == |path| || (IsDir(scope) && path[k] == '/')) && path[..k] == b {
      if k < |path| {
        assert b + "/" == path[..k + 1];
      }
    }
  }

  /** On glob-free scopes the answer is exact. */
  lemma LiteralOverlapIsExact(left: string, right: string, cls: Brackets)
    requires Normal(left) && Normal(right) && !HasGlob(left) && !HasGlob(right)
    ensures ScopeOverlaps(left, right, cls) <==> exists path :: Covers(left, path, cls) && Covers(right, path, cls)
  {
    var (l, r) := (Base(left), Base(right));
    if ScopeOverlaps(left, right, cls) {
      var path := if IsDir(left) && l + "/" <= r then r else l;
      LiteralCovers(left, path, cls);
      LiteralCovers(right, path, cls);
      assert Covers(left, path, cls) && Covers(right, path, cls);
    }
    if path :| Covers(left, path, cls) && Covers(right, path, cls) {
      LiteralCovers(left, path, cls);
      LiteralCovers(right, path, cls);
      if path != l && path != r {
        Comparable(l + "/", r + "/", path);
        assert |l| == |r| ==> l == (l + "/")[..|l|] == (r + "/")[..|r|] == r;
        assert |l| < |r| && l + "/" <= r + "/" ==> l + "/" == (r + "/")[..|l| + 1] == r[..|l| + 1];
        assert |r| < |l| && r + "/" <= l + "/" ==> r + "/" == (l + "/")[..|r| + 1] == l[..|r| + 1];
      }
    }
  }

  lemma CoveredStartsWithPrefix(scope: string, path: string, cls: Brackets)
    requires Normal(scope) && Covers(scope, path, cls)
    ensures LiteralPrefix(scope) <= path + "/"
  {
    var b := Base(scope);
    LiteralPrefixStep(scope);
    if HasGlob(b) {
      var k :| 0 <= k <= |path| && Match(path[..k], b, cls);
      MatchStartsWithPrefix(path[..k], b, cls);
      PrefixOfSlashed(b);
    } else {
      assert !HasGlob(scope) by {
        assert forall i | 0 <= i < |scope| :: scope[i] == '/' || (i < |b| && scope[i] == b[i]);
      }
      LiteralCovers(scope, path, cls);
    }
  }

  /** Overlap is conservative: two scopes that can cover a common path are reported. */
  lemma OverlapIsConservative(left: string, right: string, path: string, cls: Brackets)
    requires Normal(left) && Normal(right) && Covers(left, path, cls) && Covers(right, path, cls)
    ensures ScopeOverlaps(left, right, cls)
  {
    if HasGlob(left) || HasGlob(right) {
      CoveredStartsWithPrefix(left, path, cls);
      CoveredStartsWithPrefix(right, path, cls);
      Comparable(LiteralPrefix(left), LiteralPrefix(right), path + "/");
      GlobOverlapIsPrefixComparison(left, right, cls);
    } else {
      LiteralOverlapIsExact(left, right, cls);
    }
  }

  lemma OverlapIsSymmetric(left: string, right: string, cls: Brackets)
    ensures ScopeOverlaps(left, right, cls) == ScopeOverlaps(right, left, cls)
  {
  }
}
