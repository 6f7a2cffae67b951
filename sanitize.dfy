/** `_sanitize_filename` and the inline copy of its loop that builds episode file names. */
module Sanitize {

  /** The characters deleted from a file name, in the order the loop deletes them. */
  const Forbidden: seq<char> := ['<', '>', ':', '"', '/', '\\', '|', '?', '*']

  /** `s.replace(c, '')` */
  function RemoveChar(s: string, c: char): (r: string)
  {
    if s == [] then [] else (if s[0] == c then [] else [s[0]]) + RemoveChar(s[1..], c)
  }

  /** `s` with every character of `cs` deleted and every other character kept, in order. */
  function Without(s: string, cs: seq<char>): (r: string)
    ensures |r| <= |s|
    ensures forall k :: 0 <= k < |r| ==> r[k] !in cs
  {
    if s == [] then [] else (if s[0] in cs then [] else [s[0]]) + Without(s[1..], cs)
  }

  /** What `_sanitize_filename` returns. */
  function Sanitized(s: string): string
  {
    Without(s, Forbidden)
  }

  lemma {:induction false} WithoutNothing(s: string)
    ensures Without(s, []) == s
  {
    if s != [] {
      WithoutNothing(s[1..]);
    }
  }

  /** One pass of the loop: deleting `c` from what is left extends the deleted set by `c`. */
  lemma {:induction false} RemoveCharAfterWithout(s: string, cs: seq<char>, c: char)
    ensures RemoveChar(Without(s, cs), c) == Without(s, cs + [c])
  {
    if s != [] {
      RemoveCharAfterWithout(s[1..], cs, c);
      var rest := Without(s[1..], cs);
      assert (s[0] in cs + [c]) == (s[0] in cs || s[0] == c);
      if s[0] in cs {
        assert Without(s, cs) == rest;
      } else {
        assert Without(s, cs) == [s[0]] + rest;
        assert ([s[0]] + rest)[0] == s[0] && ([s[0]] + rest)[1..] == rest;
      }
    }
  }

  /** The sanitising loop: each of the nine characters is deleted in turn. */
  method SanitizeFilename(name: string) returns (r: string)
    ensures r == Sanitized(name)
    ensures forall k :: 0 <= k < |r| ==> r[k] !in Forbidden
  {
    r := name;
    WithoutNothing(name);
    assert Forbidden[..0] == [];
    for i := 0 to |Forbidden|
      invariant r == Without(name, Forbidden[..i])
    {
      RemoveCharAfterWithout(name, Forbidden[..i], Forbidden[i]);
      assert Forbidden[..i + 1] == Forbidden[..i] + [Forbidden[i]];
      r := RemoveChar(r, Forbidden[i]);
    }
    assert Forbidden[..|Forbidden|] == Forbidden;
  }

  /** Sanitising works character by character, so it keeps the order of what it keeps. */
  lemma {:induction false} SanitizedAppend(a: string, b: string)
    ensures Sanitized(a + b) == Sanitized(a) + Sanitized(b)
  {
    if a != [] {
      assert (a + b)[0] == a[0] && (a + b)[1..] == a[1..] + b;
      SanitizedAppend(a[1..], b);
    } else {
      assert a + b == b;
    }
  }

  /** Every character outside the nine occurs as often after sanitising as before; the nine do not occur. */
  lemma {:induction false} SanitizedCounts(s: string, c: char)
    ensures multiset(Sanitized(s))[c] == if c in Forbidden then 0 else multiset(s)[c]
  {
    if s != [] {
      SanitizedCounts(s[1..], c);
      assert s == [s[0]] + s[1..];
    }
  }

  /** A name with none of the nine characters is left as it is. */
  lemma {:induction false} SanitizedOfClean(s: string)
    requires forall k :: 0 <= k < |s| ==> s[k] !in Forbidden
    ensures Sanitized(s) == s
  {
    if s != [] {
      SanitizedOfClean(s[1..]);
      assert s == [s[0]] + s[1..];
    }
  }

  /** Sanitising twice is sanitising once. */
  lemma SanitizedIdempotent(s: string)
    ensures Sanitized(Sanitized(s)) == Sanitized(s)
  {
    SanitizedOfClean(Sanitized(s));
  }
}
