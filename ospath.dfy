/** POSIX `os.path.join` for two components. */
module OsPath {

  predicate IsAbsolute(p: string) { |p| > 0 && p[0] == '/' }

  /**
   * `os.path.join(a, b)`: an absolute `b` replaces `a`; otherwise `b` is
   * appended after a single `/`, which is omitted when `a` is empty or
   * already ends with one.
   */
  function Join(a: string, b: string): (r: string)
    ensures IsAbsolute(b) ==> r == b
    ensures !IsAbsolute(b) ==> |r| >= |b| && r[|r| - |b|..] == b
    ensures !IsAbsolute(b) && a != [] ==> |r| >= |a| && r[..|a|] == a
  {
    if IsAbsolute(b) then b
    else if a == [] || a[|a| - 1] == '/' then a + b
    else a + "/" + b
  }

  /**
   * Between a folder and a relative name there is exactly one `/`: none is
   * added when the folder is empty or already ends with one, else one is.
   */
  lemma JoinSeparator(a: string, b: string)
    requires !IsAbsolute(b)
    ensures |Join(a, b)| == |a| + |b| + (if a == [] || a[|a| - 1] == '/' then 0 else 1)
    ensures a != [] && a[|a| - 1] != '/' ==> Join(a, b)[|a|] == '/'
  {
  }

  /** For a fixed folder, different relative names give different paths. */
  lemma JoinInjective(a: string, b1: string, b2: string)
    requires !IsAbsolute(b1) && !IsAbsolute(b2)
    requires Join(a, b1) == Join(a, b2)
    ensures b1 == b2
  {
  }
}
