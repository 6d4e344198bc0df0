/**
 Strings as JavaScript sees them: truthiness and `String.prototype.trim`.
 A string is a `seq<char>`; `trim` removes every leading and trailing code
 point of the WhiteSpace and LineTerminator productions of ECMA-262.
 */
module JsString {

  /** WhiteSpace (TAB, VT, FF, SP, NBSP, ZWNBSP and the Unicode category Zs)
      and LineTerminator (LF, CR, LS, PS) code points. */
  predicate IsWhitespace(c: char) {
    || c == '\t' || c == '\U{000B}' || c == '\U{000C}' || c == ' '
    || c == '\U{00A0}' || c == '\U{FEFF}'
    || c == '\U{1680}' || ('\U{2000}' <= c <= '\U{200A}')
    || c == '\U{202F}' || c == '\U{205F}' || c == '\U{3000}'
    || c == '\n' || c == '\r' || c == '\U{2028}' || c == '\U{2029}'
  }

  /** Every code point of `s` is whitespace (vacuously true of ""). */
  predicate AllWhitespace(s: string) {
    forall i :: 0 <= i < |s| ==> IsWhitespace(s[i])
  }

  /** Neither end of `s` is whitespace. */
  predicate Untrimmable(s: string) {
    s == [] || (!IsWhitespace(s[0]) && !IsWhitespace(s[|s| - 1]))
  }

  /** JavaScript truthiness of a string value: only "" is falsy. */
  predicate Truthy(s: string) {
    s != []
  }

  /** The first index at or after `k` that does not hold whitespace, or `|s|`. */
  function SkipLeading(s: string, k: nat): (n: nat)
    requires k <= |s|
    ensures k <= n <= |s|
    ensures forall i :: k <= i < n ==> IsWhitespace(s[i])
    ensures n < |s| ==> !IsWhitespace(s[n])
    decreases |s| - k
  {
    if k < |s| && IsWhitespace(s[k]) then SkipLeading(s, k + 1) else k
  }

  /** The least `n` in `lo..hi` such that `s[n..hi]` is all whitespace. */
  function SkipTrailing(s: string, lo: nat, hi: nat): (n: nat)
    requires lo <= hi <= |s|
    ensures lo <= n <= hi
    ensures forall i :: n <= i < hi ==> IsWhitespace(s[i])
    ensures n > lo ==> !IsWhitespace(s[n - 1])
    decreases hi
  {
    if hi > lo && IsWhitespace(s[hi - 1]) then SkipTrailing(s, lo, hi - 1) else hi
  }

  /** `String.prototype.trim`: the slice of `s` between its leading and its
      trailing whitespace. It has no whitespace at either end, and it is
      empty exactly when `s` is all whitespace. */
  function Trim(s: string): (r: string)
    ensures |r| <= |s|
    ensures Untrimmable(r)
    ensures r == [] <==> AllWhitespace(s)
  {
    var lo := SkipLeading(s, 0);
    var hi := SkipTrailing(s, lo, |s|);
    assert lo == hi ==> lo == |s|;
    s[lo..hi]
  }

  /** What `Trim` keeps is a contiguous slice of `s` with only whitespace
      on either side of it. */
  lemma TrimIsSlice(s: string)
    ensures var r := Trim(s);
      exists lo :: 0 <= lo <= |s| - |r| && s[lo..lo + |r|] == r
        && AllWhitespace(s[..lo]) && AllWhitespace(s[lo + |r|..])
  {
    var lo := SkipLeading(s, 0);
    var hi := SkipTrailing(s, lo, |s|);
    var r := s[lo..hi];
    assert Trim(s) == r;
    forall i | 0 <= i < |s[..lo]|
      ensures IsWhitespace(s[..lo][i])
    {
      assert s[..lo][i] == s[i];
    }
    forall i | 0 <= i < |s[hi..]|
      ensures IsWhitespace(s[hi..][i])
    {
      assert s[hi..][i] == s[hi + i];
    }
    assert lo + |r| == hi;
    assert 0 <= lo <= |s| - |r| && s[lo..lo + |r|] == r
      && AllWhitespace(s[..lo]) && AllWhitespace(s[lo + |r|..]);
  }

  /** Skipping leading whitespace from `k` stops at the first index `n`
      past a whitespace run that is not itself whitespace. */
  lemma {:induction false} SkipLeadingStopsAt(s: string, k: nat, n: nat)
    requires k <= n <= |s|
    requires forall i :: k <= i < n ==> IsWhitespace(s[i])
    requires n < |s| ==> !IsWhitespace(s[n])
    ensures SkipLeading(s, k) == n
    decreases n - k
  {
    if k < n {
      SkipLeadingStopsAt(s, k + 1, n);
    }
  }

  /** Skipping trailing whitespace down from `hi` stops just after the last
      code point that is not whitespace. */
  lemma {:induction false} SkipTrailingStopsAt(s: string, lo: nat, hi: nat, n: nat)
    requires lo <= n <= hi <= |s|
    requires forall i :: n <= i < hi ==> IsWhitespace(s[i])
    requires n > lo ==> !IsWhitespace(s[n - 1])
    ensures SkipTrailing(s, lo, hi) == n
    decreases hi - n
  {
    if n < hi {
      SkipTrailingStopsAt(s, lo, hi - 1, n);
    }
  }

  /** `Trim` is characterised independently of how it is computed: whatever
      whitespace surrounds a string with non-whitespace ends, trimming
      returns exactly that string. */
  lemma TrimRecovers(a: string, m: string, b: string)
    requires AllWhitespace(a) && AllWhitespace(b)
    requires Untrimmable(m)
    ensures Trim(a + m + b) == m
  {
    var s := a + m + b;
    if m == [] {
      assert AllWhitespace(s) by {
        forall i | 0 <= i < |s|
          ensures IsWhitespace(s[i])
        {
          if i < |a| {
            assert s[i] == a[i];
          } else {
            assert s[i] == b[i - |a|];
          }
        }
      }
    } else {
      var lo, hi := |a|, |a| + |m|;
      assert s[lo] == m[0] && s[hi - 1] == m[|m| - 1];
      assert forall i :: 0 <= i < lo ==> s[i] == a[i];
      assert forall i :: hi <= i < |s| ==> s[i] == b[i - hi];
      SkipLeadingStopsAt(s, 0, lo);
      SkipTrailingStopsAt(s, lo, |s|, hi);
      assert s[lo..hi] == m;
    }
  }

  /** Trimming twice is trimming once. */
  lemma TrimIdempotent(s: string)
    ensures Trim(Trim(s)) == Trim(s)
  {
    var r := Trim(s);
    assert [] + r + [] == r;
    TrimRecovers([], r, []);
  }
}
