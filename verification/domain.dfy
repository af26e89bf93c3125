/**
 * The HELO argument check `isDomainName` of main.go: a byte-level syntax test
 * after RFC 1035 (size limits of section 2.3.4) and section 2 of RFC 3696.
 * `ValidDomainName` states the rules position by position; `IsDomainName` is
 * the single scanning loop of the source, proved to decide exactly them.
 */
module DomainName {
  import opened Strings

  /** The bytes that mark a name as a name rather than a number: ASCII letters and '_'. */
  predicate IsLetter(c: char)
  {
    'a' <= c <= 'z' || 'A' <= c <= 'Z' || c == '_'
  }

  predicate Allowed(c: char)
  {
    IsLetter(c) || IsDigit(c) || c == '-' || c == '.'
  }

  /** The byte just before position `i`; the start of the name counts as a dot. */
  function Before(s: string, i: nat): char
    requires i <= |s|
  {
    if i == 0 then '.' else s[i - 1]
  }

  /** Length of the label that ends just before position `i` (the run of non-dot bytes). */
  function RunLength(s: string, i: nat): nat
    requires i <= |s|
  {
    if i == 0 || s[i - 1] == '.' then 0 else RunLength(s, i - 1) + 1
  }

  /**
   * The rules each byte of a name obeys: it is a letter, digit, '-' or '.';
   * a dot neither starts the name nor follows a dot or a dash, and ends a label
   * of at most 63 bytes; a dash does not start a label.
   */
  predicate ByteOk(s: string, k: nat)
    requires k < |s|
  {
    && Allowed(s[k])
    && (s[k] == '.' ==> Before(s, k) != '.' && Before(s, k) != '-' && RunLength(s, k) <= 63)
    && (s[k] == '-' ==> Before(s, k) != '.')
  }

  /** Every one of the first `n` bytes obeys the per-byte rules. */
  predicate PrefixOk(s: string, n: nat)
    requires n <= |s|
  {
    forall k :: 0 <= k < n ==> ByteOk(s, k)
  }

  /**
   * The accepted names: 1 to 253 bytes, or 254 when the last one is a dot;
   * every byte obeys `ByteOk`; at least one letter or '_' occurs (so
   * "127.0.0.1" is refused); the name does not end in a dash; and its last
   * label is at most 63 bytes (a single trailing dot leaves it empty).
   */
  predicate ValidDomainName(s: string)
  {
    && 0 < |s| <= 254
    && (|s| == 254 ==> s[253] == '.')
    && PrefixOk(s, |s|)
    && (exists i :: 0 <= i < |s| && IsLetter(s[i]))
    && s[|s| - 1] != '-'
    && RunLength(s, |s|) <= 63
  }

  /** main.go's `isDomainName`: one pass over the bytes, tracking the previous byte and the current label length. */
  method IsDomainName(s: string) returns (ok: bool)
    ensures ok <==> ValidDomainName(s)
  {
    var l := |s|;
    if l == 0 || l > 254 || (l == 254 && s[l - 1] != '.') {
      return false;
    }
    var last := '.';
    var seenLetter := false;
    var partlen := 0;
    var i := 0;
    while i < |s|
      invariant 0 <= i <= |s|
      invariant last == Before(s, i)
      invariant partlen == RunLength(s, i)
      invariant seenLetter <==> exists k :: 0 <= k < i && IsLetter(s[k])
      invariant PrefixOk(s, i)
    {
      var c := s[i];
      if IsLetter(c) {
        seenLetter := true;
        partlen := partlen + 1;
      } else if IsDigit(c) {
        partlen := partlen + 1;
      } else if c == '-' {
        if last == '.' {
          assert !ByteOk(s, i);
          return false;
        }
        partlen := partlen + 1;
      } else if c == '.' {
        if last == '.' || last == '-' {
          assert !ByteOk(s, i);
          return false;
        }
        if partlen > 63 || partlen == 0 {
          assert !ByteOk(s, i);
          return false;
        }
        partlen := 0;
      } else {
        assert !ByteOk(s, i);
        return false;
      }
      assert ByteOk(s, i);
      last := c;
      i := i + 1;
    }
    if last == '-' || partlen > 63 {
      return false;
    }
    return seenLetter;
  }

  /** A name made only of digits and dots, such as a dotted IPv4 address, is refused. */
  lemma NumericNameRejected(s: string)
    requires forall i :: 0 <= i < |s| ==> IsDigit(s[i]) || s[i] == '.'
    ensures !ValidDomainName(s)
  {
  }

  /** A single trailing dot is accepted: "a.test." is valid like "a.test". */
  lemma TrailingDotAccepted()
    ensures ValidDomainName("a.test")
    ensures ValidDomainName("a.test.")
  {
    var s := "a.test.";
    assert RunLength(s, 1) == 1;
    assert RunLength(s, 2) == 0;
    assert RunLength(s, 6) == 4;
    assert ByteOk(s, 1) && ByteOk(s, 6);
    assert PrefixOk(s, 7);
    assert s[..6] == "a.test";
    assert RunLength("a.test", 6) == 4;
    assert PrefixOk("a.test", 6);
    assert s[0] == 'a';
  }
}
