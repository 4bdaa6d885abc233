/** `os.path.join` with two arguments, as POSIX Python defines it. */
module PosixPath {

  predicate IsAbsolute(p: string) {
    |p| > 0 && p[0] == '/'
  }

  /** An absolute second part replaces the first; otherwise the two are joined by a
      single separator unless the first is empty or already ends in one. */
  function Join(a: string, b: string): (r: string)
    ensures |b| <= |r| && r[|r| - |b|..] == b
    ensures IsAbsolute(b) ==> r == b
    ensures !IsAbsolute(b) ==> |a| <= |r| && r[..|a|] == a
    ensures !IsAbsolute(b) ==>
      (|r| == |a| + |b| + 1 <==> a != [] && a[|a| - 1] != '/') &&
      (|r| == |a| + |b| || |r| == |a| + |b| + 1)
    ensures !IsAbsolute(b) && |r| == |a| + |b| + 1 ==> r[|a|] == '/'
  {
    if IsAbsolute(b) then b
    else if a == [] || a[|a| - 1] == '/' then a + b
    else a + "/" + b
  }
}
