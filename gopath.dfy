/** The two slash-separated path helpers the core relies on: the last
    element of a path (used to name a child whose display name is empty)
    and the split of a URL string at its last slash (used to name the file
    of a single download). */
module GoPath {

  /** Index of the last '/' in `s`, or -1 when there is none. */
  function LastSlash(s: string): (i: int)
    ensures -1 <= i < |s|
    ensures i >= 0 ==> s[i] == '/'
    ensures forall j :: i < j < |s| ==> s[j] != '/'
  {
    if s == [] then -1
    else if s[|s| - 1] == '/' then |s| - 1
    else LastSlash(s[..|s| - 1])
  }

  /** Splits `p` right after its last slash: the directory part (empty or
      ending in '/') and the file part, which holds no slash. */
  function Split(p: string): (parts: (string, string))
    ensures parts.0 + parts.1 == p
    ensures '/' !in parts.1
    ensures parts.0 == [] || parts.0[|parts.0| - 1] == '/'
  {
    var i := LastSlash(p);
    (p[..i + 1], p[i + 1..])
  }

  /** `p` without its trailing slashes. */
  function TrimTrailingSlashes(p: string): (t: string)
    ensures |t| <= |p| && t == p[..|t|]
    ensures t == [] || t[|t| - 1] != '/'
    ensures forall j :: |t| <= j < |p| ==> p[j] == '/'
  {
    if p != [] && p[|p| - 1] == '/' then TrimTrailingSlashes(p[..|p| - 1]) else p
  }

  predicate AllSlashes(p: string) {
    forall j :: 0 <= j < |p| ==> p[j] == '/'
  }

  /** The last element of `p`: trailing slashes are dropped and what follows
      the last remaining slash is kept; "." names the empty path and "/" a
      path made only of slashes. */
  function Base(p: string): (b: string)
    ensures p == [] ==> b == "."
    ensures p != [] && AllSlashes(p) ==> b == "/"
    ensures !AllSlashes(p) ==>
              var t := TrimTrailingSlashes(p);
              && b != []
              && '/' !in b
              && |b| <= |t|
              && b == t[|t| - |b|..]
              && (|b| == |t| || t[|t| - |b| - 1] == '/')
  {
    if p == [] then "."
    else
      var t := TrimTrailingSlashes(p);
      assert t != [] ==> t[|t| - 1] == p[|t| - 1];
      var i := LastSlash(t);
      var last := t[i + 1..];
      if last == [] then "/" else last
  }
}
