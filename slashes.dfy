/**
 Slash trimming as performed by Python's `str.lstrip('/')`, `str.rstrip('/')`
 and `str.strip('/')`: every leading (resp. trailing, resp. both) `/` is
 removed, however many there are.

 The functions are kept bare; what they compute is stated by the lemmas
 beside them, which callers invoke where they need it.
 */
module Slashes {

  /** Every character of `s` is a slash (vacuously true of the empty string). */
  predicate AllSlashes(s: string) {
    forall i :: 0 <= i < |s| ==> s[i] == '/'
  }

  predicate StartsWithSlash(s: string) {
    |s| > 0 && s[0] == '/'
  }

  predicate EndsWithSlash(s: string) {
    |s| > 0 && s[|s| - 1] == '/'
  }

  /** `s.lstrip('/')`. */
  function LStrip(s: string): string
    decreases |s|
  {
    if StartsWithSlash(s) then LStrip(s[1..]) else s
  }

  /** `s.rstrip('/')`. */
  function RStrip(s: string): string
    decreases |s|
  {
    if EndsWithSlash(s) then RStrip(s[..|s| - 1]) else s
  }

  /** `s.strip('/')`. */
  function Strip(s: string): string {
    LStrip(RStrip(s))
  }

  /**
   `LStrip(s)` is the suffix of `s` left after a run of slashes, and does
   not itself start with a slash: the longest such run is removed.
   */
  lemma {:induction false} LStripRemovesLeadingRun(s: string)
    ensures var r := LStrip(s);
      && |r| <= |s| && r == s[|s| - |r|..]
      && AllSlashes(s[..|s| - |r|])
      && !StartsWithSlash(r)
    decreases |s|
  {
    if StartsWithSlash(s) {
      var r := LStrip(s[1..]);
      LStripRemovesLeadingRun(s[1..]);
      assert s[1..][|s| - 1 - |r|..] == s[|s| - |r|..];
      assert s[..|s| - |r|] == [s[0]] + s[1..][..|s| - 1 - |r|];
    }
  }

  /**
   `RStrip(s)` is the prefix of `s` before a run of slashes, and does not
   itself end with a slash.
   */
  lemma {:induction false} RStripRemovesTrailingRun(s: string)
    ensures var r := RStrip(s);
      && |r| <= |s| && r == s[..|r|]
      && AllSlashes(s[|r|..])
      && !EndsWithSlash(r)
    decreases |s|
  {
    if EndsWithSlash(s) {
      var r := RStrip(s[..|s| - 1]);
      RStripRemovesTrailingRun(s[..|s| - 1]);
      assert s[..|s| - 1][..|r|] == s[..|r|];
      assert s[|r|..] == s[..|s| - 1][|r|..] + [s[|s| - 1]];
    }
  }

  /**
   `Strip(s)` has a slash at neither end, and is empty exactly when `s` is
   made of slashes only.
   */
  lemma StripShape(s: string)
    ensures !StartsWithSlash(Strip(s)) && !EndsWithSlash(Strip(s))
    ensures Strip(s) == [] <==> AllSlashes(s)
  {
    var t := RStrip(s);
    var r := LStrip(t);
    RStripRemovesTrailingRun(s);
    LStripRemovesLeadingRun(t);
    if r != [] {
      assert r[|r| - 1] == t[|t| - 1];
    }
    if r == [] {
      assert s[|t|..] == s;
    }
  }

  /**
   Strip removes exactly a run of slashes on each side: the result is the
   infix `s[i..j]` of `s`, where everything before `i` and from `j` on is a slash.
   */
  lemma StripIsInfix(s: string)
    ensures var j := |RStrip(s)|; var i := j - |Strip(s)|;
      0 <= i <= j <= |s| && Strip(s) == s[i..j] && AllSlashes(s[..i]) && AllSlashes(s[j..])
  {
    var t := RStrip(s);
    RStripRemovesTrailingRun(s);
    LStripRemovesLeadingRun(t);
    var j := |t|;
    var i := j - |Strip(s)|;
    assert s[..i] == t[..i];
  }

  /** A string with no slash at either end is its own strip. */
  lemma StripUnchanged(s: string)
    requires !StartsWithSlash(s) && !EndsWithSlash(s)
    ensures Strip(s) == s
  {
  }

  /** Stripping twice is stripping once. */
  lemma StripIdempotent(s: string)
    ensures Strip(Strip(s)) == Strip(s)
  {
    StripShape(s);
    StripUnchanged(Strip(s));
  }

  /** lstrip of a slash followed by a string that does not start with one. */
  lemma LStripSlashPrefix(t: string)
    requires !StartsWithSlash(t)
    ensures LStrip("/" + t) == t
  {
    assert ("/" + t)[1..] == t;
  }
}
