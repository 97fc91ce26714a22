/**
 * The POSIX `os.path` operations the study assistant relies on:
 * `join`, `basename` and `splitext`.
 */
module PyPath {
  import opened PyStr

  /** The index of the last occurrence of `c` in `s`, or -1 (Python's `str.rfind`). */
  function RFind(s: string, c: char): (k: int)
    ensures -1 <= k < |s|
    ensures k >= 0 ==> s[k] == c
    ensures forall i :: k < i < |s| ==> s[i] != c
  {
    if s == [] then -1
    else if s[|s| - 1] == c then |s| - 1
    else RFind(s[..|s| - 1], c)
  }

  /** `os.path.join(dir, name)`: an absolute `name` replaces `dir`; otherwise a single '/' separates them. */
  function Join(dir: string, name: string): string {
    if name != [] && name[0] == '/' then name
    else if dir == [] || dir[|dir| - 1] == '/' then dir + name
    else dir + "/" + name
  }

  /** `os.path.basename(path)`: what follows the last '/'. */
  function Basename(path: string): (b: string)
    ensures '/' !in b
    ensures EndsWith(path, b)
  {
    path[RFind(path, '/') + 1..]
  }

  /** Some character of `p[lo..hi]` is not a dot. */
  predicate HasNonDot(p: string, lo: int, hi: int)
    requires 0 <= lo <= hi <= |p|
  {
    exists k :: lo <= k < hi && p[k] != '.'
  }

  /**
   * `os.path.splitext(path)[0]`: the path without its extension. The extension
   * starts at the last '.' after the last '/', but only when some character
   * other than '.' precedes that dot in the last component (so ".json" and
   * "..json" have no extension).
   */
  function SplitExtRoot(path: string): (root: string)
    ensures StartsWith(path, root)
  {
    var sep := RFind(path, '/');
    var dot := RFind(path, '.');
    if dot > sep && HasNonDot(path, sep + 1, dot) then path[..dot] else path
  }
}
