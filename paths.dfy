/**
 * POSIX-style path helpers standing in for Node's `path.join`, `path.dirname`
 * and `path.isAbsolute`, as far as the candidate-location resolver uses them.
 * Separators are collapsed only where two pieces meet; `.` and `..` segments
 * are not normalised.
 */
module Paths {
  import opened Wrappers

  const Separator: char := '/'

  /** `s.startsWith(prefix)`. */
  predicate StartsWith(s: string, prefix: string) {
    |prefix| <= |s| && s[..|prefix|] == prefix
  }

  /** A path is absolute when it starts at the root. */
  predicate IsAbsolute(p: string) {
    |p| > 0 && p[0] == Separator
  }

  /** `p` without the separators it ends with. */
  function TrimEnd(p: string): (r: string)
    ensures |r| <= |p| && r == p[..|r|]
    ensures r == [] || r[|r| - 1] != Separator
    ensures forall i :: |r| <= i < |p| ==> p[i] == Separator
  {
    if p == [] || p[|p| - 1] != Separator then p else TrimEnd(p[..|p| - 1])
  }

  /** `p` without the separators it starts with. */
  function TrimStart(p: string): (r: string)
    ensures |r| <= |p| && r == p[|p| - |r|..]
    ensures r == [] || r[0] != Separator
    ensures forall i :: 0 <= i < |p| - |r| ==> p[i] == Separator
  {
    if p == [] || p[0] != Separator then p else TrimStart(p[1..])
  }

  /**
   * `path.join(base, tail)`: the two pieces with exactly one separator where
   * they meet; an empty piece leaves the other as it is.
   */
  function Join(base: string, tail: string): (r: string)
    ensures base == [] ==> r == tail
    ensures base != [] && tail == [] ==> r == base
    ensures base != [] && tail != [] ==>
      r == TrimEnd(base) + [Separator] + TrimStart(tail)
  {
    if base == [] then tail
    else if tail == [] then base
    else TrimEnd(base) + [Separator] + TrimStart(tail)
  }

  /** Position of the last separator in `p`, if there is one. */
  function LastSeparator(p: string): (r: Option<nat>)
    ensures r.None? <==> forall i :: 0 <= i < |p| ==> p[i] != Separator
    ensures r.Some? ==>
      r.value < |p| && p[r.value] == Separator &&
      forall i :: r.value < i < |p| ==> p[i] != Separator
  {
    if p == [] then None
    else if p[|p| - 1] == Separator then Some(|p| - 1)
    else LastSeparator(p[..|p| - 1])
  }

  /**
   * `path.dirname(p)`: everything before the last separator; the root when
   * that separator is the first character; `.` when there is none.
   */
  function Dirname(p: string): (r: string)
    ensures r != []
  {
    match LastSeparator(p)
    case None => "."
    case Some(i) => if i == 0 then [Separator] else p[..i]
  }

  /**
   * Joining a directory with a plain file name and taking the directory of
   * the result gives the directory back, without its trailing separators
   * (the root stays the root).
   */
  lemma DirnameOfJoin(dir: string, file: string)
    requires dir != []
    requires file != [] && forall i :: 0 <= i < |file| ==> file[i] != Separator
    ensures Dirname(Join(dir, file)) == if TrimEnd(dir) == [] then [Separator] else TrimEnd(dir)
  {
    var d := TrimEnd(dir);
    var j := Join(dir, file);
    assert TrimStart(file) == file;
    assert j == d + [Separator] + file;
    assert j[|d|] == Separator;
    forall i | |d| < i < |j|
      ensures j[i] != Separator
    {
      assert j[i] == file[i - |d| - 1];
    }
    var last := LastSeparator(j);
    assert last.Some?;
    assert last.value == |d|;
    if d != [] {
      assert Dirname(j) == j[..|d|];
      assert j[..|d|] == d;
    }
  }
}
