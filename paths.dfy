/** The path and string operations that the comparison engine of
    src/libs/Diff.js relies on, over paths given as sequences of components.
    From Node's `path` module: `path.join(dir, name)` is `dir + [name]`,
    `path.basename` is the last component, `path.extname` is the extension of
    that component and `path.relative` walks up from one path to the other.
    From `String.prototype`: `toLowerCase`, on ASCII letters. */
module Paths {

  type Path = seq<string>

  /** `path.basename`: the last component, or the empty string for the empty path. */
  function Basename(p: Path): string
  {
    if p == [] then "" else p[|p| - 1]
  }

  /** The index of the last '.' in `s`, or -1 when `s` has none. */
  function LastDot(s: string): (r: int)
    ensures -1 <= r < |s|
    ensures 0 <= r ==> s[r] == '.'
    ensures forall i :: r < i < |s| ==> s[i] != '.'
  {
    if s == [] then -1
    else if s[|s| - 1] == '.' then |s| - 1
    else LastDot(s[..|s| - 1])
  }

  /** `path.extname` of a single component: the suffix from the last '.', or
      the empty string when there is no '.', when the only '.' that could
      start an extension is the first character, or when the name is "..". */
  function ExtName(name: string): (e: string)
    ensures e != "" ==> |e| < |name| && name == name[..|name| - |e|] + e
    ensures e != "" ==> e[0] == '.' && forall i :: 0 < i < |e| ==> e[i] != '.'
    ensures e == "" <==> name == ".." || forall i :: 0 < i < |name| ==> name[i] != '.'
  {
    var d := LastDot(name);
    if d <= 0 || name == ".." then ""
    else
      assert name == name[..d] + name[d..];
      name[d..]
  }

  /** `String.prototype.toLowerCase` (line 99 of src/libs/Diff.js) on one
      character, for the ASCII letters. */
  function LowerChar(c: char): char
  {
    if 'A' <= c <= 'Z' then (c as int - 'A' as int + 'a' as int) as char else c
  }

  /** Lower-casing leaves no upper-case ASCII letter, moves each one to its
      lower-case partner 32 code points on, and leaves every other character
      as it is. */
  function ToLower(s: string): (r: string)
    ensures |r| == |s|
    ensures forall i :: 0 <= i < |r| ==> !('A' <= r[i] <= 'Z')
    ensures forall i :: 0 <= i < |s| && !('A' <= s[i] <= 'Z') ==> r[i] == s[i]
    ensures forall i :: 0 <= i < |s| && 'A' <= s[i] <= 'Z' ==> r[i] as int == s[i] as int + 32
  {
    seq(|s|, i requires 0 <= i < |s| => LowerChar(s[i]))
  }

  /** The length of the longest common prefix of `a` and `b`. */
  function CommonPrefixLength(a: Path, b: Path): (k: nat)
    ensures k <= |a| && k <= |b|
    ensures a[..k] == b[..k]
    ensures k < |a| && k < |b| ==> a[k] != b[k]
  {
    if a == [] || b == [] || a[0] != b[0] then 0
    else
      var k := 1 + CommonPrefixLength(a[1..], b[1..]);
      assert a[..k] == [a[0]] + a[1..][..k - 1];
      assert b[..k] == [b[0]] + b[1..][..k - 1];
      k
  }

  /** `n` copies of the parent-directory component. */
  function Ups(n: nat): (r: Path)
    ensures |r| == n && forall i :: 0 <= i < n ==> r[i] == ".."
  {
    if n == 0 then [] else Ups(n - 1) + [".."]
  }

  /** `path.relative(from, to)`: climb from `from` to the deepest directory it
      shares with `to`, then descend to `to`. */
  function Relative(from: Path, to: Path): Path
  {
    var k := CommonPrefixLength(from, to);
    Ups(|from| - k) + to[k..]
  }

  /** The reference definition: walk the components of `rel` from `base`, as
      `path.resolve` does. A ".." component climbs to the parent directory, or
      stays at the top when there is none; any other component descends. */
  function Resolve(base: Path, rel: Path): Path
    decreases |rel|
  {
    if rel == [] then base
    else if rel[0] == ".." then Resolve(if base == [] then [] else base[..|base| - 1], rel[1..])
    else Resolve(base + [rel[0]], rel[1..])
  }

  lemma {:induction false} ResolveUps(base: Path, n: nat, rest: Path)
    requires n <= |base|
    ensures Resolve(base, Ups(n) + rest) == Resolve(base[..|base| - n], rest)
  {
    if n == 0 {
      assert Ups(n) + rest == rest;
      assert base[..|base|] == base;
    } else {
      assert Ups(n) + rest == [".."] + (Ups(n - 1) + rest);
      var parent := base[..|base| - 1];
      ResolveUps(parent, n - 1, rest);
      assert parent[..|parent| - (n - 1)] == base[..|base| - n];
    }
  }

  lemma {:induction false} ResolveDescends(base: Path, rest: Path)
    requires forall i :: 0 <= i < |rest| ==> rest[i] != ".."
    ensures Resolve(base, rest) == base + rest
    decreases |rest|
  {
    if rest != [] {
      ResolveDescends(base + [rest[0]], rest[1..]);
      assert base + [rest[0]] + rest[1..] == base + rest;
    }
  }

  /** The partner of `Relative`: resolving the relative path from `from` leads
      back to `to`, for any `to` without ".." components. */
  lemma RelativeResolves(from: Path, to: Path)
    requires forall i :: 0 <= i < |to| ==> to[i] != ".."
    ensures Resolve(from, Relative(from, to)) == to
  {
    var k := CommonPrefixLength(from, to);
    ResolveUps(from, |from| - k, to[k..]);
    ResolveDescends(from[..k], to[k..]);
    assert to[..k] + to[k..] == to;
  }

  /** Relative to a root, a path under that root is what follows the root. */
  lemma {:induction false} RelativeUnderRoot(root: Path, rel: Path)
    ensures Relative(root, root + rel) == rel
  {
    var p := root + rel;
    var k := CommonPrefixLength(root, p);
    assert k == |root|;
    assert p[|root|..] == rel;
  }

  /** `path.basename(path.join(dir, name))` is `name`. */
  lemma BasenameOfJoin(dir: Path, name: string)
    ensures Basename(dir + [name]) == name
  {
  }
}
