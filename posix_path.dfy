/**
 * `path.dirname` as Node.js computes it on POSIX, used by the load hook of
 * src/plugin.ts:56 for the `resolveDir` of a compiled schema.
 *
 * Node scans from the end down to index 1: it skips trailing separators,
 * then the last name, and cuts at the next separator it meets. With no such
 * separator the answer is "/" for a rooted path and "." otherwise; a cut at
 * index 1 of a rooted path gives "//".
 */
module PosixPath {

  const Sep: char := '/'

  /** The largest index `i` with `1 <= i < hi` and `p[i] != '/'`, or -1. */
  function LastNameChar(p: string, hi: nat): (i: int)
    requires hi <= |p|
    ensures i == -1 || (1 <= i < hi && p[i] != Sep)
    ensures forall k :: i < k < hi && 1 <= k ==> p[k] == Sep
    decreases hi
  {
    if hi <= 1 then -1
    else if p[hi - 1] != Sep then hi - 1
    else LastNameChar(p, hi - 1)
  }

  /** The largest index `j` with `1 <= j < hi` and `p[j] == '/'`, or -1. */
  function LastSepBefore(p: string, hi: nat): (j: int)
    requires hi <= |p|
    ensures j == -1 || (1 <= j < hi && p[j] == Sep)
    ensures forall k :: j < k < hi && 1 <= k ==> p[k] != Sep
    decreases hi
  {
    if hi <= 1 then -1
    else if p[hi - 1] == Sep then hi - 1
    else LastSepBefore(p, hi - 1)
  }

  /** Where Node cuts `p`: the separator before its last name, or -1. */
  function CutAt(p: string): (end: int)
    ensures end == -1 || (1 <= end < |p| && p[end] == Sep)
  {
    var t := LastNameChar(p, |p|);
    if t == -1 then -1 else LastSepBefore(p, t)
  }

  /** `path.dirname(p)`. */
  function DirName(p: string): (r: string)
    ensures |r| > 0
    // the directory is "." or a proper or whole prefix of the path
    ensures r == "." || r <= p
    // an absolute path keeps an absolute directory; a relative one never gets one
    ensures |p| > 0 && p[0] == Sep ==> r[0] == Sep
    ensures (|p| == 0 || p[0] != Sep) ==> r[0] != Sep
  {
    if |p| == 0 then "."
    else
      var end := CutAt(p);
      if end == -1 then (if p[0] == Sep then "/" else ".")
      else if p[0] == Sep && end == 1 then "//"
      else p[..end]
  }

  /** The scans look only at the indices below their bound. */
  lemma ScansSeeOnlyPrefix(p: string, q: string, hi: nat)
    requires hi <= |p| && hi <= |q| && p[..hi] == q[..hi]
    ensures LastNameChar(p, hi) == LastNameChar(q, hi)
    ensures LastSepBefore(p, hi) == LastSepBefore(q, hi)
  {
  }

  /** The directory of a file `dir/name` is `dir`, for every directory path not ending in a separator. */
  lemma DirNameOfChild(dir: string, name: string)
    requires |dir| > 0 && dir[|dir| - 1] != Sep
    requires |name| > 0 && Sep !in name
    ensures DirName(dir + [Sep] + name) == dir
  {
    var p := dir + [Sep] + name;
    assert p[|p| - 1] == name[|name| - 1];
    var t := LastNameChar(p, |p|);
    assert t == |p| - 1;
    assert p[|dir|] == Sep;
    var end := LastSepBefore(p, t);
    assert forall k :: |dir| < k < |p| ==> p[k] == name[k - |dir| - 1];
    assert end == |dir|;
    assert p[..end] == dir;
  }

  /** `k` separators in a row. */
  function Seps(k: nat): (s: string)
    ensures |s| == k && forall i :: 0 <= i < k ==> s[i] == Sep
  {
    seq(k, _ => Sep)
  }

  /**
   * Of `k >= 1` separators between a directory and the last name, the cut
   * drops only the last: `dir + "/"*k + name` has directory `dir + "/"*(k-1)`.
   */
  lemma DirNameKeepsRepeatedSeps(dir: string, k: nat, name: string)
    requires |dir| > 0 && dir[|dir| - 1] != Sep
    requires k >= 1
    requires |name| > 0 && Sep !in name
    ensures DirName(dir + Seps(k) + name) == dir + Seps(k - 1)
  {
    var p := dir + Seps(k) + name;
    var end := |dir| + k - 1;
    assert p[|p| - 1] == name[|name| - 1];
    assert LastNameChar(p, |p|) == |p| - 1;
    assert p[end] == Sep;
    assert forall i :: end < i < |p| ==> p[i] == name[i - |dir| - k];
    assert LastSepBefore(p, |p| - 1) == end;
    assert p[..end] == dir + Seps(k - 1);
  }

  /** A file directly under the root has "/" as its directory. */
  lemma DirNameAtRoot(name: string)
    requires |name| > 0 && Sep !in name
    ensures DirName([Sep] + name) == "/"
  {
  }

  /** A bare name, or the empty path, has "." as its directory. */
  lemma DirNameOfBareName(name: string)
    requires Sep !in name
    ensures DirName(name) == "."
  {
  }

  /** A trailing separator does not change the directory of a non-empty path. */
  lemma TrailingSepIgnored(p: string)
    requires |p| > 0
    ensures DirName(p + [Sep]) == DirName(p)
  {
    var q := p + [Sep];
    assert q[..|p|] == p[..|p|];
    ScansSeeOnlyPrefix(p, q, |p|);
    var t := LastNameChar(p, |p|);
    if |p| >= 1 {
      assert LastNameChar(q, |q|) == LastNameChar(q, |p|);
    }
    if t != -1 {
      assert p[..t] == q[..t];
      ScansSeeOnlyPrefix(p, q, t);
      assert q[0] == p[0];
      var end := LastSepBefore(p, t);
      if end != -1 {
        assert q[..end] == p[..end];
      }
    }
  }

  /** The cut keeps repeated separators before the last name: "/a//b" has directory "/a/". */
  lemma RepeatedSepKept()
    ensures DirName("/a//b") == "/a/"
    ensures DirName("//a") == "//"
  {
  }
}
