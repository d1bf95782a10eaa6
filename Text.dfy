/**
 * String operations the pipeline relies on: upper-casing, substring search
 * (exact and case-insensitive) and removal of every occurrence of a literal.
 *
 * Upper-casing covers ASCII letters and the Romanian lower-case diacritics;
 * every other character is left as it is. Accented capitals are distinct
 * characters, so `'Ș'` never equals `'S'` and `'Ă'` never equals `'A'`.
 */
module Text {

  /** Upper case of one character: `a`..`z` and ă â î ș ş ț ţ. */
  function UpperChar(c: char): char
  {
    if 'a' <= c <= 'z' then (c as int - 32) as char
    else match c
      case 'ă' => 'Ă'
      case 'â' => 'Â'
      case 'î' => 'Î'
      case 'ș' => 'Ș'
      case 'ş' => 'Ş'
      case 'ț' => 'Ț'
      case 'ţ' => 'Ţ'
      case _ => c
  }

  lemma UpperCharIdempotent(c: char)
    ensures UpperChar(UpperChar(c)) == UpperChar(c)
  {
  }

  /** `str.upper()`, character by character. */
  function Upper(s: string): string
  {
    seq(|s|, i requires 0 <= i < |s| => UpperChar(s[i]))
  }

  /** The lower-case letters that upper-casing changes. */
  predicate IsLower(c: char)
  {
    'a' <= c <= 'z' || c in "ăâîșşțţ"
  }

  /**
   * What upper-casing does to a name: the length is kept, no lower-case
   * letter is left, every lower-case letter is changed and every other
   * character is kept.
   */
  lemma UpperLeavesNoLowerCase(s: string)
    ensures |Upper(s)| == |s|
    ensures forall i :: 0 <= i < |s| ==> !IsLower(Upper(s)[i])
    ensures forall i :: 0 <= i < |s| ==> (Upper(s)[i] == s[i] <==> !IsLower(s[i]))
  {
  }

  /** Upper-casing twice is upper-casing once. */
  lemma UpperIdempotent(s: string)
    ensures Upper(Upper(s)) == Upper(s)
  {
    forall i | 0 <= i < |s| ensures Upper(Upper(s))[i] == Upper(s)[i] {
      UpperCharIdempotent(s[i]);
    }
  }

  /** `p` occurs in `s` starting at position `m`. */
  predicate OccursAt(s: string, p: string, m: nat)
  {
    m + |p| <= |s| && s[m..m + |p|] == p
  }

  /** Plain substring test: `p in s` in Python. */
  predicate Contains(s: string, p: string)
  {
    exists m: nat | m <= |s| :: OccursAt(s, p, m)
  }

  /** `str.contains(p, case=False)` for a pattern free of regex meta-characters. */
  predicate ContainsCI(s: string, p: string)
  {
    Contains(Upper(s), Upper(p))
  }

  /** Matching ignores case, so upper-casing the subject first changes nothing. */
  lemma ContainsCIOfUpper(s: string, p: string)
    ensures ContainsCI(Upper(s), p) == ContainsCI(s, p)
  {
    UpperIdempotent(s);
  }

  lemma SliceOfSlice(s: string, a: nat, b: nat, c: nat, d: nat)
    requires a <= b <= |s| && c <= d <= b - a
    ensures s[a..b][c..d] == s[a + c..a + d]
  {
    assert |s[a..b][c..d]| == d - c;
    forall k | 0 <= k < d - c ensures s[a..b][c..d][k] == s[a + c..a + d][k] {
    }
  }

  /** Substring is transitive: whatever contains `q` contains every part of `q`. */
  lemma ContainsTransitive(s: string, q: string, p: string)
    requires Contains(s, q) && Contains(q, p)
    ensures Contains(s, p)
  {
    var m: nat :| m <= |s| && OccursAt(s, q, m);
    var n: nat :| n <= |q| && OccursAt(q, p, n);
    SliceOfSlice(s, m, m + |q|, n, n + |p|);
    assert OccursAt(s, p, m + n);
  }

  lemma ContainsCITransitive(s: string, q: string, p: string)
    requires ContainsCI(s, q) && ContainsCI(q, p)
    ensures ContainsCI(s, p)
  {
    UpperIdempotent(q);
    ContainsTransitive(Upper(s), Upper(q), Upper(p));
  }

  /** One of the first five characters of `p` differs from `s` read from `m`. */
  predicate MismatchNear(s: string, p: string, m: nat)
    requires 4 <= |p| && m + |p| <= |s|
  {
    s[m] != p[0] || s[m + 1] != p[1] || s[m + 2] != p[2] || s[m + 3] != p[3] ||
    (|p| > 4 && s[m + 4] != p[4])
  }

  /**
   * A cheap refutation of containment: when every window of `s` differs from
   * `p` within its first five characters, `p` does not occur in `s`.
   */
  lemma NotContainsByMismatch(s: string, p: string)
    requires |p| >= 4
    requires forall m: nat :: m + |p| <= |s| ==> MismatchNear(s, p, m)
    ensures !Contains(s, p)
  {
    forall m: nat | m <= |s| ensures !OccursAt(s, p, m) {
      if m + |p| <= |s| {
        assert MismatchNear(s, p, m);
        var w := s[m..m + |p|];
        assert w[0] == s[m] && w[1] == s[m + 1] && w[2] == s[m + 2] && w[3] == s[m + 3];
        assert |p| > 4 ==> w[4] == s[m + 4];
        assert w != p;
      }
    }
  }

  /**
   * `s.replace(p, '')`: scanning left to right, every occurrence of `p` that
   * does not overlap an earlier removed one is dropped. The text is scanned
   * once, so pieces joined by a removal are not searched again.
   */
  function RemoveAll(s: string, p: string): string
    requires p != []
    decreases |s|
  {
    if |s| < |p| then s
    else if s[..|p|] == p then RemoveAll(s[|p|..], p)
    else [s[0]] + RemoveAll(s[1..], p)
  }

  /** Without an occurrence there is nothing to remove. */
  lemma {:induction false} RemoveAllAbsent(s: string, p: string)
    requires p != []
    requires !Contains(s, p)
    ensures RemoveAll(s, p) == s
    decreases |s|
  {
    if |s| >= |p| {
      assert !OccursAt(s, p, 0);
      assert s[..|p|] != p;
      if Contains(s[1..], p) {
        var m: nat :| m <= |s[1..]| && OccursAt(s[1..], p, m);
        assert s[1..][m..m + |p|] == s[m + 1..m + 1 + |p|];
        assert OccursAt(s, p, m + 1);
      }
      RemoveAllAbsent(s[1..], p);
      assert s == [s[0]] + s[1..];
    }
  }

  /**
   * A prefix in which no occurrence starts is kept as it is, and the
   * removal carries on after it.
   */
  lemma {:induction false} RemoveAllKeepsClearPrefix(a: string, r: string, p: string)
    requires p != []
    requires forall k: nat :: k < |a| ==> !OccursAt(a + r, p, k)
    ensures RemoveAll(a + r, p) == a + RemoveAll(r, p)
    decreases |a|
  {
    if a == [] {
      assert a + r == r;
    } else {
      var s := a + r;
      var rest := a[1..];
      assert s[1..] == rest + r;
      forall k: nat | k < |rest| ensures !OccursAt(rest + r, p, k) {
        ShiftOccurrence(s, p, k);
      }
      RemoveAllKeepsClearPrefix(rest, r, p);
      if |s| >= |p| {
        assert !OccursAt(s, p, 0);
        RemoveAllKeepsFirst(s, p);
        assert [a[0]] + rest == a;
        ConsConcat(a[0], rest, RemoveAll(r, p));
      }
    }
  }

  /** Without an occurrence at the front, the first character is kept. */
  lemma RemoveAllKeepsFirst(s: string, p: string)
    requires p != [] && |s| >= |p| && !OccursAt(s, p, 0)
    ensures RemoveAll(s, p) == [s[0]] + RemoveAll(s[1..], p)
  {
    assert s[..|p|] != p;
  }

  lemma ConsConcat(c: char, a: string, b: string)
    ensures [c] + (a + b) == ([c] + a) + b
  {
  }

  /** An occurrence in the tail is an occurrence one place further on. */
  lemma ShiftOccurrence(s: string, p: string, k: nat)
    requires s != []
    ensures OccursAt(s[1..], p, k) == OccursAt(s, p, k + 1)
  {
    if k + 1 + |p| <= |s| {
      assert s[1..][k..k + |p|] == s[k + 1..k + 1 + |p|];
    }
  }

  /** The text shrinks exactly when it contains the pattern. */
  lemma {:induction false} RemoveAllShrinks(s: string, p: string)
    requires p != []
    ensures |RemoveAll(s, p)| <= |s|
    ensures |RemoveAll(s, p)| < |s| <==> Contains(s, p)
    decreases |s|
  {
    if |s| < |p| {
      assert forall m: nat :: !OccursAt(s, p, m);
    } else if !Contains(s, p) {
      RemoveAllAbsent(s, p);
    } else {
      if s[..|p|] == p {
        RemoveAllShrinks(s[|p|..], p);
      } else {
        RemoveAllShrinks(s[1..], p);
        var m: nat :| m <= |s| && OccursAt(s, p, m);
        assert m != 0;
        ShiftOccurrence(s, p, m - 1);
      }
    }
  }

  /** Removing `p` from `p + t` removes the leading copy and goes on with `t`. */
  lemma RemoveAllLeading(p: string, t: string)
    requires p != []
    ensures RemoveAll(p + t, p) == RemoveAll(t, p)
  {
    assert (p + t)[..|p|] == p;
    assert (p + t)[|p|..] == t;
  }
}
