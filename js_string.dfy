/**
 * JavaScript's String.prototype.trim over strings of code points.
 *
 * `trim` removes, from both ends, every code point that ECMAScript classes as
 * WhiteSpace or LineTerminator (sections 12.2 and 12.3 of ECMA-262).
 */
module JsString {

  /** WhiteSpace and LineTerminator code points of ECMA-262: TAB, VT, FF, SP,
      NBSP, ZWNBSP, the space separators (Zs) and LF, CR, LS, PS. */
  predicate IsJsWhitespace(c: char)
  {
    var k := c as int;
    k == 0x09 || k == 0x0A || k == 0x0B || k == 0x0C || k == 0x0D
    || k == 0x20 || k == 0xA0 || k == 0x1680 || (0x2000 <= k <= 0x200A)
    || k == 0x2028 || k == 0x2029 || k == 0x202F || k == 0x205F
    || k == 0x3000 || k == 0xFEFF
  }

  predicate AllWhitespace(s: string)
  {
    forall i :: 0 <= i < |s| ==> IsJsWhitespace(s[i])
  }

  /** Neither the first nor the last code point is whitespace. */
  predicate IsTrimmed(s: string)
  {
    s == [] || (!IsJsWhitespace(s[0]) && !IsJsWhitespace(s[|s| - 1]))
  }

  /** Number of whitespace code points at the front of `s`: all of them are
      whitespace and the one after them, if any, is not. */
  function LeadingWhitespace(s: string): (k: nat)
    ensures k <= |s|
    ensures forall i :: 0 <= i < k ==> IsJsWhitespace(s[i])
    ensures k < |s| ==> !IsJsWhitespace(s[k])
  {
    if s == [] || !IsJsWhitespace(s[0]) then 0 else 1 + LeadingWhitespace(s[1..])
  }

  /** End of `s` once the trailing whitespace after position `k` is dropped:
      everything from it on is whitespace and the code point before it, if it
      lies after `k`, is not. */
  function TrailingStart(s: string, k: nat): (e: nat)
    requires k <= |s|
    ensures k <= e <= |s|
    ensures forall i :: e <= i < |s| ==> IsJsWhitespace(s[i])
    ensures k < e ==> !IsJsWhitespace(s[e - 1])
  {
    if |s| > k && IsJsWhitespace(s[|s| - 1]) then TrailingStart(s[..|s| - 1], k) else |s|
  }

  /** `s.trim()`: `s` is its result framed by a leading and a trailing run of
      whitespace; the result is empty exactly when `s` is whitespace only. */
  function Trim(s: string): (r: string)
    ensures IsTrimmed(r)
    ensures r == [] <==> AllWhitespace(s)
    ensures var k := LeadingWhitespace(s);
            && k + |r| <= |s| && s == s[..k] + r + s[k + |r|..]
            && AllWhitespace(s[..k]) && AllWhitespace(s[k + |r|..])
  {
    var k := LeadingWhitespace(s);
    var e := TrailingStart(s, k);
    assert s == s[..k] + s[k..e] + s[e..];
    s[k..e]
  }

  /** Reference characterisation of `trim`: a trimmed string framed by
      whitespace on both sides trims back to itself. */
  lemma TrimStrips(w1: string, t: string, w2: string)
    requires AllWhitespace(w1) && AllWhitespace(w2) && IsTrimmed(t)
    ensures Trim(w1 + t + w2) == t
  {
    var s := w1 + t + w2;
    var k := LeadingWhitespace(s);
    var e := TrailingStart(s, k);
    if t == [] {
      assert forall i :: 0 <= i < |s| ==> IsJsWhitespace(s[i]) by {
        forall i | 0 <= i < |s| ensures IsJsWhitespace(s[i]) {
          if i < |w1| { assert s[i] == w1[i]; } else { assert s[i] == w2[i - |w1|]; }
        }
      }
    } else {
      assert s[|w1|] == t[0];
      assert s[|w1| + |t| - 1] == t[|t| - 1];
      assert k == |w1|;
      assert e == |w1| + |t|;
      assert s[k..e] == t;
    }
  }

  /** A string already free of outer whitespace is left as it is. */
  lemma TrimOfTrimmed(s: string)
    requires IsTrimmed(s)
    ensures Trim(s) == s
  {
    TrimStrips([], s, []);
    assert [] + s + [] == s;
  }

  /** Trimming twice is trimming once. */
  lemma TrimIdempotent(s: string)
    ensures Trim(Trim(s)) == Trim(s)
  {
    TrimOfTrimmed(Trim(s));
  }
}
