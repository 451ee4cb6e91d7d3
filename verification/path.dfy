/**
 * The part of Python's `os.path` that the converter relies on: `splitext`,
 * which cuts a path into a root and an extension.  The path separators of the
 * host (`/` on POSIX; `\` and `/` on Windows) are a parameter.
 */
module PathModel {

  /** Python's `str.rfind` over a set of characters: the index of the last
      character of `p` that is in `cs`, or -1 when there is none. */
  function RFind(p: string, cs: set<char>): (i: int)
    ensures -1 <= i < |p|
    ensures 0 <= i ==> p[i] in cs
    ensures forall j :: i < j < |p| ==> p[j] !in cs
  {
    if p == [] then -1
    else if p[|p| - 1] in cs then |p| - 1
    else RFind(p[..|p| - 1], cs)
  }

  /**
   * `os.path.splitext(p)`: `(root, ext)` with `root + ext == p`.  The extension
   * starts at the last dot of the final path component, and only when that
   * component has a character other than a dot before it (so `.bashrc` and
   * `..` have no extension); otherwise it is empty.
   */
  function SplitExt(p: string, seps: set<char>): (r: (string, string))
    ensures r.0 + r.1 == p
    // a non-empty extension is one dot followed by neither dots nor separators
    ensures r.1 != [] ==> r.1[0] == '.'
    ensures forall k :: 1 <= k < |r.1| ==> r.1[k] != '.' && r.1[k] !in seps
    // ... and the final component has a non-dot character before it
    ensures r.1 != [] ==> exists k :: RFind(p, seps) < k < |r.0| && p[k] != '.'
    // an empty extension: no dot of the final component follows a non-dot
    ensures r.1 == [] ==>
      forall d, k :: RFind(p, seps) < k < d < |p| && p[d] == '.' ==> p[k] == '.'
  {
    var sepIndex := RFind(p, seps);
    var dotIndex := RFind(p, {'.'});
    if sepIndex < dotIndex && exists k :: sepIndex < k < dotIndex && p[k] != '.' then
      (p[..dotIndex], p[dotIndex..])
    else
      (p, [])
  }
}
