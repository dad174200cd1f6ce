/**
 * The e-mail check of the contact form: `/\S+@\S+\.\S+/.test(email)`.
 * The regular expression has no anchors, so `test` asks whether SOME
 * substring of the input has the shape "non-blank run, '@', non-blank run,
 * '.', non-blank run" (`\S` is any character that is not white space; note
 * that '@' and '.' are themselves `\S`).
 *
 * `ContainsMatch` states that meaning directly; `Test` is a left-to-right
 * scanner that keeps one flag per position of the pattern, and
 * `TestIsRegexSearch` proves the two agree on every string.
 */
module EmailPattern {
  import opened JsText

  /** s[i..j] is a non-empty run of non-white-space characters (`\S+`). */
  ghost predicate NonBlankRun(s: string, i: int, j: int)
  {
    0 <= i < j <= |s| && forall t | i <= t < j :: !IsWhiteSpace(s[t])
  }

  /** s[i..j] matches `\S+@\S+\.\S+` with the '@' at a and the '.' at d. */
  ghost predicate MatchAt(s: string, i: int, a: int, d: int, j: int)
  {
    && 0 <= i < a && a + 1 < d && d + 1 < j <= |s|
    && NonBlankRun(s, i, a) && s[a] == '@'
    && NonBlankRun(s, a + 1, d) && s[d] == '.'
    && NonBlankRun(s, d + 1, j)
  }

  /** What `RegExp.prototype.test` answers for the unanchored pattern. */
  ghost predicate ContainsMatch(s: string)
  {
    exists i, a, d, j :: MatchAt(s, i, a, d, j)
  }

  /** Which prefixes of the pattern can end at the current position:
      `\S+`, `\S+@`, `\S+@\S+`, `\S+@\S+\.`, and whether a whole match
      has already ended somewhere. */
  datatype ScanState = ScanState(run: bool, at: bool, host: bool, dot: bool, found: bool)

  const Start := ScanState(false, false, false, false, false)

  function Step(st: ScanState, c: char): ScanState
  {
    if IsWhiteSpace(c) then ScanState(false, false, false, false, st.found)
    else ScanState(true, st.run && c == '@', st.at || st.host, st.host && c == '.', st.found || st.dot)
  }

  /** The scanner's state after reading s[..k]. */
  function ScanTo(s: string, k: nat): ScanState
    requires k <= |s|
  {
    if k == 0 then Start else Step(ScanTo(s, k - 1), s[k - 1])
  }

  /** The executable stand-in for `/\S+@\S+\.\S+/.test(s)`. */
  function Test(s: string): bool
  {
    ScanTo(s, |s|).found
  }

  // What each flag of the scanner means after reading s[..k].

  ghost predicate RunEnds(s: string, k: int)
  {
    0 < k <= |s| && !IsWhiteSpace(s[k - 1])
  }

  ghost predicate AtEnds(s: string, k: int)
  {
    1 < k <= |s| && s[k - 1] == '@' && RunEnds(s, k - 1)
  }

  ghost predicate HostEnds(s: string, k: int)
  {
    exists m :: AtEnds(s, m) && NonBlankRun(s, m, k)
  }

  ghost predicate DotEnds(s: string, k: int)
  {
    1 < k <= |s| && s[k - 1] == '.' && HostEnds(s, k - 1)
  }

  ghost predicate FoundBy(s: string, k: int)
  {
    exists j :: j <= k && RunEnds(s, j) && DotEnds(s, j - 1)
  }

  lemma HostStep(s: string, k: nat)
    requires k < |s|
    ensures HostEnds(s, k + 1) <==> !IsWhiteSpace(s[k]) && (AtEnds(s, k) || HostEnds(s, k))
  {
    if HostEnds(s, k + 1) {
      var m :| AtEnds(s, m) && NonBlankRun(s, m, k + 1);
      if m < k {
        assert NonBlankRun(s, m, k);
      }
    }
    if !IsWhiteSpace(s[k]) {
      if AtEnds(s, k) {
        assert NonBlankRun(s, k, k + 1);
      } else if HostEnds(s, k) {
        var m :| AtEnds(s, m) && NonBlankRun(s, m, k);
        assert NonBlankRun(s, m, k + 1);
      }
    }
  }

  lemma FoundStep(s: string, k: nat)
    requires k < |s|
    ensures FoundBy(s, k + 1) <==> FoundBy(s, k) || (DotEnds(s, k) && !IsWhiteSpace(s[k]))
  {
    if FoundBy(s, k + 1) {
      var j :| j <= k + 1 && RunEnds(s, j) && DotEnds(s, j - 1);
      if j <= k {
        assert FoundBy(s, k);
      }
    }
    if DotEnds(s, k) && !IsWhiteSpace(s[k]) {
      assert RunEnds(s, k + 1);
    }
  }

  /** The scanner's flags mean exactly what their names say. */
  lemma {:induction false} ScanMeaning(s: string, k: nat)
    requires k <= |s|
    ensures ScanTo(s, k).run <==> RunEnds(s, k)
    ensures ScanTo(s, k).at <==> AtEnds(s, k)
    ensures ScanTo(s, k).host <==> HostEnds(s, k)
    ensures ScanTo(s, k).dot <==> DotEnds(s, k)
    ensures ScanTo(s, k).found <==> FoundBy(s, k)
  {
    if k > 0 {
      ScanMeaning(s, k - 1);
      HostStep(s, k - 1);
      FoundStep(s, k - 1);
    }
  }

  /** A complete match ends by |s| exactly when the pattern occurs in s. */
  lemma FoundByMeansMatch(s: string)
    ensures FoundBy(s, |s|) <==> ContainsMatch(s)
  {
    if FoundBy(s, |s|) {
      var j :| j <= |s| && RunEnds(s, j) && DotEnds(s, j - 1);
      var m :| AtEnds(s, m) && NonBlankRun(s, m, j - 2);
      assert NonBlankRun(s, m - 2, m - 1);
      assert NonBlankRun(s, j - 1, j);
      assert MatchAt(s, m - 2, m - 1, j - 2, j);
    }
    if ContainsMatch(s) {
      var i, a, d, j :| MatchAt(s, i, a, d, j);
      assert s[a - 1] == s[i..a][a - 1 - i];
      assert AtEnds(s, a + 1);
      assert HostEnds(s, d);
      assert RunEnds(s, d + 2);
      assert FoundBy(s, |s|);
    }
  }

  /** The scanner decides the regular-expression search. */
  lemma TestIsRegexSearch(s: string)
    ensures Test(s) <==> ContainsMatch(s)
  {
    ScanMeaning(s, |s|);
    FoundByMeansMatch(s);
  }

  /** A string that is all white space (in particular the empty string)
      never contains the pattern: a blank e-mail cannot be "invalid"
      before it is "required". */
  lemma BlankNeverMatches(s: string)
    requires AllWhiteSpace(s)
    ensures !ContainsMatch(s)
  {
    forall i, a, d, j | 0 <= i < |s| ensures !MatchAt(s, i, a, d, j) {
      assert IsWhiteSpace(s[i]);
    }
  }

  /** Without an '@' there is no match. */
  lemma NoAtNoMatch(s: string)
    requires forall k | 0 <= k < |s| :: s[k] != '@'
    ensures !ContainsMatch(s)
  {
    forall i, a, d, j | 0 <= a < |s| ensures !MatchAt(s, i, a, d, j) {
      assert s[a] != '@';
    }
  }

  /** The pattern is not anchored: text containing a match, whatever
      surrounds it, makes the test succeed. */
  lemma MatchInsideText(p: string, addr: string, q: string)
    requires ContainsMatch(addr)
    ensures Test(p + addr + q)
  {
    var s := p + addr + q;
    var n := |p|;
    var i, a, d, j :| MatchAt(addr, i, a, d, j);
    assert forall t | 0 <= t < |addr| :: s[n + t] == addr[t];
    assert NonBlankRun(s, n + i, n + a);
    assert NonBlankRun(s, n + a + 1, n + d);
    assert NonBlankRun(s, n + d + 1, n + j);
    assert MatchAt(s, n + i, n + a, n + d, n + j);
    TestIsRegexSearch(s);
  }

  /** The shortest kind of address, "a@b.c", contains the pattern. */
  lemma ShortAddressMatches()
    ensures ContainsMatch("a@b.c")
  {
    var s := "a@b.c";
    assert NonBlankRun(s, 0, 1) && NonBlankRun(s, 2, 3) && NonBlankRun(s, 4, 5);
    assert MatchAt(s, 0, 1, 3, 5);
  }
}
