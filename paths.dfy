/**
 * Slash-separated path handling (Go's path.Dir, path.Base and path.Join) for
 * clean paths: no "." or ".." segments after the first, no repeated or
 * trailing slashes. On such paths, and for Join a relative name without
 * "." or ".." segments, these definitions agree with the library.
 */
module Paths {
  import opened Strings

  /**
   * path.Dir: everything before the last element. It is never empty: "." for
   * a bare name, "/" for a top-level one (its only slash leads) and for no
   * path with a slash after position 1, otherwise the proper prefix of `p`
   * that the last slash follows.
   */
  function Dir(p: string): (d: string)
    ensures d != ""
    ensures '/' !in p ==> d == "."
    ensures '/' in p ==> d == "/" || (|d| < |p| && d == p[..|d|] && p[|d|] == '/')
    ensures '/' in p && d != "/" ==> forall k :: |d| < k < |p| ==> p[k] != '/'
    ensures '/' in p && d == "/" ==> p[0] == '/' && forall k :: 1 < k < |p| ==> p[k] != '/'
    ensures LastIndexOf(p, '/') == 0 ==> d == "/"
  {
    var i := LastIndexOf(p, '/');
    if i < 0 then "." else if i == 0 then "/" else p[..i]
  }

  /**
   * path.Base: the last element, the longest slash-free suffix of `p` (a
   * slash comes right before it, unless it is all of `p`); "." for the empty
   * path and "/" for the root.
   */
  function Base(p: string): (b: string)
    ensures p == "" ==> b == "."
    ensures p == "/" ==> b == "/"
    ensures p != "" && p != "/" ==> '/' !in b && |b| <= |p| && b == p[|p| - |b|..]
    ensures p != "" && p != "/" && |b| < |p| ==> p[|p| - |b| - 1] == '/'
    ensures p != "" && '/' !in p ==> b == p
  {
    if p == "" then "."
    else if p == "/" then "/"
    else
      var i := LastIndexOf(p, '/');
      var b := p[i + 1..];
      assert '/' !in b by {
        forall k | 0 <= k < |b|
          ensures b[k] != '/'
        {
          assert b[k] == p[i + 1 + k] && i < i + 1 + k < |p|;
        }
      }
      b
  }

  /**
   * path.Join of two elements: an empty element is skipped, and a "." or "/"
   * directory folds into the name. Below any other directory a non-empty name
   * follows that directory and a slash (`DirOfJoin` takes the result apart again).
   */
  function Join(dir: string, name: string): (r: string)
    ensures name == "" ==> r == dir
    ensures name != "" && (dir == "" || dir == ".") ==> r == name
    ensures name != "" && dir == "/" ==> r == "/" + name
    ensures name != "" && dir != "" && dir != "." && dir != "/" ==> r == dir + "/" + name
  {
    if name == "" then dir
    else if dir == "" || dir == "." then name
    else if dir == "/" then "/" + name
    else dir + "/" + name
  }

  /** The last slash of `p` is at `i` (or there is none, i == -1) when one is there and none follows. */
  lemma LastSlashAt(p: string, i: int)
    requires -1 <= i < |p|
    requires i >= 0 ==> p[i] == '/'
    requires forall k :: i < k < |p| ==> p[k] != '/'
    ensures LastIndexOf(p, '/') == i
  {
  }

  /**
   * Joining a directory with a non-empty slash-free name gives a path whose
   * directory is that directory again and whose base is that name.
   */
  lemma DirOfJoin(dir: string, name: string)
    requires dir != "" && name != "" && '/' !in name
    ensures Dir(Join(dir, name)) == dir
    ensures Base(Join(dir, name)) == name
  {
    var p := Join(dir, name);
    if dir == "." {
      assert Dir(p) == dir && Base(p) == name by {
        assert p == name;
        LastSlashAt(p, -1);
      }
    } else if dir == "/" {
      assert Dir(p) == dir && Base(p) == name by {
        assert p == "/" + name;
        assert forall k :: 0 < k < |p| ==> p[k] == name[k - 1];
        LastSlashAt(p, 0);
        assert p[1..] == name;
      }
    } else {
      assert Dir(p) == dir && Base(p) == name by {
        var i := |dir|;
        assert p == dir + "/" + name;
        assert forall k :: i < k < |p| ==> p[k] == name[k - i - 1];
        LastSlashAt(p, i);
        assert p[..i] == dir && p[i + 1..] == name;
      }
    }
  }
}
