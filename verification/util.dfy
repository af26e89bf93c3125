/**
 * The string helpers of util.go (`safeSubstring`, `contains`, the
 * case-folding `getSuffix`) and the older case-sensitive `getSuffix` of main.go.
 */
module Util {
  import opened Wrappers
  import opened Strings

  /** The first `n` bytes of `s`, or all of `s` when it is shorter. */
  function SafeSubstring(s: string, n: nat): (r: string)
    ensures |r| == if |s| < n then |s| else n
    ensures HasPrefix(s, r)
  {
    if |s| < n then s else s[..n]
  }

  /** True iff some element of `a` equals `s` exactly (case-sensitive). */
  function Contains(a: seq<string>, s: string): (b: bool)
    ensures b <==> exists i :: 0 <= i < |a| && a[i] == s
  {
    if |a| == 0 then false
    else if a[0] == s then true
    else
      var b := Contains(a[1..], s);
      assert forall i :: 1 <= i < |a| ==> a[i] == a[1..][i - 1];
      b
  }

  /** What util.go's `getSuffix` can do: return a suffix, refuse, or index out of range (a Go panic). */
  datatype Suffix = Found(rest: string) | NotFound | OutOfRange

  /**
   * util.go's `getSuffix` as written: it upper-cases `s` and the first
   * `|prefix|` bytes OF `s` ITSELF and asks whether one is a prefix of the other,
   * so the bytes of `prefix` are never looked at; then it slices `s[|prefix|:]`,
   * which panics when `s` is shorter than `prefix`.
   */
  function GetSuffixAsWritten(s: string, prefix: string): (r: Suffix)
    ensures r != NotFound
    ensures r.OutOfRange? <==> |s| < |prefix|
    ensures r.Found? ==> s == s[..|prefix|] + r.rest
  {
    var sub := SafeSubstring(s, |prefix|);
    UpperPrefix(s, |sub|);
    if !HasPrefix(Upper(s), Upper(sub)) then NotFound
    else if |s| < |prefix| then OutOfRange
    else Found(s[|prefix|..])
  }

  /** A RCPT line with "XY:" in place of "TO:" passes the "RCPT TO:" test. */
  lemma GetSuffixAcceptsWrongPrefix()
    ensures GetSuffixAsWritten("RCPT XY:<b@c>", "RCPT TO:") == Found("<b@c>")
  {
    assert "RCPT XY:<b@c>"[8..] == "<b@c>";
  }

  /** A bare "HELO" line slices past its end when the prefix is "HELO ". */
  lemma GetSuffixShortLinePanics()
    ensures GetSuffixAsWritten("HELO", "HELO ") == OutOfRange
  {
  }

  /** Case-insensitive equality of two ASCII strings. */
  predicate EqualFold(a: string, b: string)
  {
    Upper(a) == Upper(b)
  }

  /**
   * `getSuffix` as evidently intended: when the first `|prefix|` bytes of `s`
   * equal `prefix` up to ASCII case, the rest of `s` in its original case;
   * otherwise nothing.
   */
  function GetSuffix(s: string, prefix: string): (r: Option<string>)
    ensures r.Some? <==> |prefix| <= |s| && EqualFold(s[..|prefix|], prefix)
    ensures r.Some? ==> s == s[..|prefix|] + r.value
  {
    if |prefix| <= |s| && EqualFold(s[..|prefix|], prefix) then Some(s[|prefix|..]) else None
  }

  /** The corrected helper undoes a case-insensitive concatenation. */
  lemma GetSuffixRoundTrip(head: string, rest: string, prefix: string)
    requires EqualFold(head, prefix)
    ensures GetSuffix(head + rest, prefix) == Some(rest)
  {
    assert |Upper(head)| == |head|;
    assert (head + rest)[..|prefix|] == head;
  }

  /** Wherever the corrected helper finds a suffix, the code as written finds the same one. */
  lemma GetSuffixAgreesOnMatch(s: string, prefix: string)
    requires GetSuffix(s, prefix).Some?
    ensures GetSuffixAsWritten(s, prefix) == Found(GetSuffix(s, prefix).value)
  {
  }

  /**
   * main.go's case-sensitive `getSuffix`: `(rest, true)` when `prefix` starts
   * `s` and `prefix + rest == s`, otherwise `("", false)`.
   */
  function GetSuffixExact(s: string, prefix: string): (r: (string, bool))
    ensures r.1 <==> HasPrefix(s, prefix)
    ensures r.1 ==> prefix + r.0 == s
    ensures !r.1 ==> r.0 == ""
  {
    if !HasPrefix(s, prefix) then ("", false) else (s[|prefix|..], true)
  }

  /** An exact match is also a case-insensitive match with the same remainder. */
  lemma ExactImpliesFolded(s: string, prefix: string)
    requires GetSuffixExact(s, prefix).1
    ensures GetSuffix(s, prefix) == Some(GetSuffixExact(s, prefix).0)
  {
  }
}
