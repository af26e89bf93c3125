/**
 * The domain-name rules of main.go's `isDomainName` read label by label, the
 * way RFC 1035 and section 2 of RFC 3696 state them: the name, less one
 * optional trailing dot, splits at its dots into labels of 1 to 63 bytes made
 * of letters, digits and dashes, none starting or ending with a dash.
 * `ValidByLabels` is that reading; `ValidDomainNameByLabels` proves it decides
 * the same names as the byte-level `ValidDomainName` that the scanning loop implements.
 */
module DomainLabels {
  import opened Strings
  import opened DomainName
  import opened Sequences

  /** One well-formed label. */
  predicate LabelOk(l: string)
  {
    && 1 <= |l| <= 63
    && l[0] != '-' && l[|l| - 1] != '-'
    && forall i :: 0 <= i < |l| ==> IsLetter(l[i]) || IsDigit(l[i]) || l[i] == '-'
  }

  /** Every piece of `t` between dots is a well-formed label. */
  predicate LabelsOk(t: string)
  {
    var labels := Split(t, '.');
    forall i :: 0 <= i < |labels| ==> LabelOk(labels[i])
  }

  /** The name without its trailing dot, if it has one. */
  function Trimmed(s: string): (t: string)
    ensures |s| > 0 && s[|s| - 1] == '.' ==> s == t + "."
    ensures !(|s| > 0 && s[|s| - 1] == '.') ==> t == s
  {
    if |s| > 0 && s[|s| - 1] == '.' then s[..|s| - 1] else s
  }

  /** The accepted names, stated over labels instead of bytes. */
  predicate ValidByLabels(s: string)
  {
    && 0 < |s| <= 254
    && (|s| == 254 ==> s[253] == '.')
    && (exists i :: 0 <= i < |s| && IsLetter(s[i]))
    && LabelsOk(Trimmed(s))
  }

  /** What the byte scan demands of a name without trailing dot. */
  predicate ScanOk(t: string)
  {
    && |t| > 0
    && PrefixOk(t, |t|)
    && t[|t| - 1] != '-' && t[|t| - 1] != '.'
    && RunLength(t, |t|) <= 63
  }

  /** The two readings of the rules agree on every string. */
  lemma ValidDomainNameByLabels(s: string)
    ensures ValidDomainName(s) <==> ValidByLabels(s)
  {
    if |s| > 0 && s[|s| - 1] == '.' {
      var t := Trimmed(s);
      TrailingDot(t);
      LabelsScan(t);
    } else {
      LabelsScan(s);
      if |s| > 0 && PrefixOk(s, |s|) {
        assert ByteOk(s, |s| - 1);
      }
    }
  }

  /** With a trailing dot, the byte rules amount to the scan rules on the name before it. */
  lemma TrailingDot(t: string)
    ensures var s := t + ".";
      (PrefixOk(s, |s|) && s[|s| - 1] != '-' && RunLength(s, |s|) <= 63) <==> ScanOk(t)
  {
    var s := t + ".";
    RunLengthPrefix(s, t, |t|);
    forall k | 0 <= k < |t|
      ensures ByteOk(s, k) <==> ByteOk(t, k)
    {
      RunLengthPrefix(s, t, k);
    }
    assert PrefixOk(s, |s|) <==> PrefixOk(t, |t|) && ByteOk(s, |t|);
  }

  /** Splitting the labels of `t` and scanning its bytes accept the same strings. */
  lemma {:induction false} LabelsScan(t: string)
    ensures LabelsOk(t) <==> ScanOk(t)
    decreases |t|
  {
    if '.' !in t {
      SplitNoSep(t, '.');
      assert forall j :: 0 <= j < |t| ==> t[j] != '.' by {
        forall j | 0 <= j < |t|
          ensures t[j] != '.'
        {
          assert t[j] in t;
        }
      }
      NoDotScan(t, |t|);
      assert Split(t, '.')[0] == t;
      assert LabelsOk(t) <==> LabelOk(t);
      if |t| > 0 {
        assert t[|t| - 1] in t;
      }
    } else {
      var i := FirstDot(t);
      LabelsAtDot(t, i);
      LabelsScan(t[i + 1..]);
      ScanAtDot(t, i);
    }
  }

  /** At the first dot, the labels of `t` are its first label and the labels after the dot. */
  lemma LabelsAtDot(t: string, i: nat)
    requires i < |t| && t[i] == '.'
    requires forall j :: 0 <= j < i ==> t[j] != '.'
    ensures LabelsOk(t) <==> LabelOk(t[..i]) && LabelsOk(t[i + 1..])
  {
    var l, r := t[..i], t[i + 1..];
    SplitAtDot(t, i);
    var labels, rest := Split(t, '.'), Split(r, '.');
    assert labels[0] == l;
    if LabelsOk(t) {
      forall j | 0 <= j < |rest|
        ensures LabelOk(rest[j])
      {
        assert labels[j + 1] == rest[j];
      }
    }
    if LabelOk(l) && LabelsOk(r) {
      forall j | 0 <= j < |labels|
        ensures LabelOk(labels[j])
      {
        if j > 0 {
          assert labels[j] == rest[j - 1];
        }
      }
    }
  }

  /** At the first dot, the byte scan of `t` is the first label's check and the scan after the dot. */
  lemma ScanAtDot(t: string, i: nat)
    requires i < |t| && t[i] == '.'
    requires forall j :: 0 <= j < i ==> t[j] != '.'
    ensures ScanOk(t) <==> LabelOk(t[..i]) && ScanOk(t[i + 1..])
  {
    var r := t[i + 1..];
    FirstLabel(t, i);
    forall j | 0 <= j < |r|
      ensures ByteOk(t, i + 1 + j) <==> ByteOk(r, j)
    {
      RunLengthShift(t, i, j);
    }
    RunLengthShift(t, i, |r|);
    assert PrefixOk(t, |t|) <==> PrefixOk(t, i + 1) && PrefixOk(r, |r|) by {
      if PrefixOk(t, i + 1) && PrefixOk(r, |r|) {
        forall k | 0 <= k < |t|
          ensures ByteOk(t, k)
        {
          if k > i {
            assert ByteOk(r, k - i - 1);
          }
        }
      }
      if PrefixOk(t, |t|) {
        forall j | 0 <= j < |r|
          ensures ByteOk(r, j)
        {
          assert ByteOk(t, i + 1 + j);
        }
      }
    }
    if |r| > 0 {
      assert t[|t| - 1] == r[|r| - 1];
    }
  }

  /** Position of the first dot. */
  function FirstDot(t: string): (i: nat)
    requires '.' in t
    ensures i < |t| && t[i] == '.'
    ensures forall j :: 0 <= j < i ==> t[j] != '.'
  {
    if t[0] == '.' then 0
    else
      assert '.' in t[1..] by {
        var k :| 0 <= k < |t| && t[k] == '.';
        assert t[1..][k - 1] == '.';
      }
      1 + FirstDot(t[1..])
  }

  /** A string splits at its first dot into that label and the pieces of the rest. */
  lemma SplitAtDot(t: string, i: nat)
    requires i < |t| && t[i] == '.'
    requires forall j :: 0 <= j < i ==> t[j] != '.'
    ensures Split(t, '.') == [t[..i]] + Split(t[i + 1..], '.')
  {
    var l, r := t[..i], t[i + 1..];
    var rest := Split(r, '.');
    var parts := [l] + rest;
    ConsParts(l, rest);
    JoinSplit(r, '.');
    assert Join(parts, '.') == t by {
      Around(t, i);
    }
    assert '.' !in l by {
      forall k | 0 <= k < |l|
        ensures l[k] != '.'
      {
        assert l[k] == t[k];
      }
    }
    forall j | 0 <= j < |parts|
      ensures '.' !in parts[j]
    {
      if j > 0 {
        assert parts[j] == rest[j - 1];
      }
    }
    SplitJoin(parts, '.');
  }

  /** Bytes before position `k` alone decide the label length there. */
  lemma {:induction false} RunLengthPrefix(s: string, t: string, k: nat)
    requires k <= |s| && k <= |t| && s[..k] == t[..k]
    ensures RunLength(s, k) == RunLength(t, k) && Before(s, k) == Before(t, k)
    decreases k
  {
    if k > 0 {
      assert s[k - 1] == s[..k][k - 1] == t[..k][k - 1] == t[k - 1];
      assert s[..k - 1] == s[..k][..k - 1];
      assert t[..k - 1] == t[..k][..k - 1];
      RunLengthPrefix(s, t, k - 1);
    }
  }

  /** Past a dot, the bytes see the rest of the name as a name of its own. */
  lemma {:induction false} RunLengthShift(t: string, i: nat, j: nat)
    requires i < |t| && t[i] == '.' && j <= |t| - i - 1
    ensures RunLength(t, i + 1 + j) == RunLength(t[i + 1..], j)
    ensures Before(t, i + 1 + j) == Before(t[i + 1..], j)
    decreases j
  {
    if j > 0 {
      assert t[i + j] == t[i + 1..][j - 1];
      RunLengthShift(t, i, j - 1);
    }
  }

  /** Without dots, a label's length is the number of bytes seen, and the byte rules only forbid a leading dash. */
  lemma {:induction false} NoDotScan(t: string, n: nat)
    requires n <= |t|
    requires forall j :: 0 <= j < n ==> t[j] != '.'
    ensures RunLength(t, n) == n
    ensures PrefixOk(t, n) <==>
      (forall j :: 0 <= j < n ==> IsLetter(t[j]) || IsDigit(t[j]) || t[j] == '-') && (n > 0 ==> t[0] != '-')
    decreases n
  {
    if n > 0 {
      NoDotScan(t, n - 1);
      assert PrefixOk(t, n) <==> PrefixOk(t, n - 1) && ByteOk(t, n - 1);
      if n > 1 {
        assert Before(t, n - 1) == t[n - 2] != '.';
      }
    }
  }

  /** The bytes up to and including the first dot obey the rules exactly when the label before it is well formed. */
  lemma FirstLabel(t: string, i: nat)
    requires i < |t| && t[i] == '.'
    requires forall j :: 0 <= j < i ==> t[j] != '.'
    ensures PrefixOk(t, i + 1) <==> LabelOk(t[..i])
  {
    var l := t[..i];
    NoDotScan(t, i);
    assert PrefixOk(t, i + 1) <==> PrefixOk(t, i) && ByteOk(t, i);
    if i > 0 {
      assert Before(t, i) == t[i - 1] == l[i - 1];
    }
    assert forall j :: 0 <= j < i ==> l[j] == t[j];
  }

  /** A worked pair: a label of 63 bytes is accepted, one of 64 is not. */
  lemma LongestLabel()
    ensures LabelOk(seq(63, _ => 'a'))
    ensures !LabelOk(seq(64, _ => 'a'))
  {
  }
}
