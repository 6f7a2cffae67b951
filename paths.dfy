/** `os.path.join` as the POSIX path module defines it. */
module Paths {
  import opened Text

  /** Joins `b` onto `a`: an absolute `b` replaces `a`; no separator is added after an empty `a` or one ending in `/`. */
  function Join(a: string, b: string): (r: string)
    ensures StartsWith(b, "/") ==> r == b
    ensures !StartsWith(b, "/") ==> StartsWith(r, a) && EndsWith(r, b)
  {
    if StartsWith(b, "/") then b
    else if a == [] || EndsWith(a, "/") then a + b
    else a + "/" + b
  }

  /** Joining two plain segments puts exactly one separator between them. */
  lemma JoinSegments(a: string, b: string)
    requires a != [] && a[|a| - 1] != '/'
    requires b != [] && b[0] != '/'
    ensures Join(a, b) == a + "/" + b
  {
    assert !StartsWith(b, "/") by { assert b[..1] == [b[0]]; }
    assert !EndsWith(a, "/") by { assert a[|a| - 1..] == [a[|a| - 1]]; }
  }
}
