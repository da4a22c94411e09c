/**
 Python's `str.strip`, with and without an explicit character set, as the
 payload builders use it.
 */
module Text {

  /** The characters for which Python's `str.isspace()` holds; `str.strip()` with no argument removes these. */
  const Whitespace: set<char> := {
    '\t', '\n', '\U{000B}', '\U{000C}', '\r', '\U{001C}', '\U{001D}', '\U{001E}', '\U{001F}', ' ',
    '\U{0085}', '\U{00A0}', '\U{1680}', '\U{2000}', '\U{2001}', '\U{2002}', '\U{2003}', '\U{2004}',
    '\U{2005}', '\U{2006}', '\U{2007}', '\U{2008}', '\U{2009}', '\U{200A}', '\U{2028}', '\U{2029}',
    '\U{202F}', '\U{205F}', '\U{3000}'
  }

  /** Every character of `s` belongs to `drop`. */
  predicate AllIn(s: string, drop: set<char>)
  {
    forall k :: 0 <= k < |s| ==> s[k] in drop
  }

  /** How many leading characters of `s` belong to `drop`. */
  function LeadingRun(s: string, drop: set<char>): (n: nat)
    ensures n <= |s| && AllIn(s[..n], drop)
    ensures n == |s| || s[n] !in drop
  {
    if s != [] && s[0] in drop then
      var m := LeadingRun(s[1..], drop);
      assert s[..1 + m] == [s[0]] + s[1..][..m];
      1 + m
    else 0
  }

  /** How many trailing characters of `s` belong to `drop`. */
  function TrailingRun(s: string, drop: set<char>): (n: nat)
    ensures n <= |s| && AllIn(s[|s| - n..], drop)
    ensures n == |s| || s[|s| - n - 1] !in drop
  {
    if s != [] && s[|s| - 1] in drop then
      var init := s[..|s| - 1];
      var m := TrailingRun(init, drop);
      assert s[|s| - 1 - m..] == init[|init| - m..] + [s[|s| - 1]];
      1 + m
    else 0
  }

  /** The leading run is the only prefix of `drop` characters not followed by another one. */
  lemma LeadingRunUnique(s: string, drop: set<char>, n: nat)
    requires n <= |s| && AllIn(s[..n], drop) && (n == |s| || s[n] !in drop)
    ensures LeadingRun(s, drop) == n
  {
    var m := LeadingRun(s, drop);
    assert forall k :: 0 <= k < n ==> s[..n][k] == s[k];
    assert forall k :: 0 <= k < m ==> s[..m][k] == s[k];
  }

  /** The trailing run is the only suffix of `drop` characters not preceded by another one. */
  lemma {:induction false} TrailingRunUnique(s: string, drop: set<char>, n: nat)
    requires n <= |s| && AllIn(s[|s| - n..], drop) && (n == |s| || s[|s| - n - 1] !in drop)
    ensures TrailingRun(s, drop) == n
  {
    if n > 0 {
      var init := s[..|s| - 1];
      assert s[|s| - n..][n - 1] == s[|s| - 1];
      assert init[|init| - (n - 1)..] == s[|s| - n..][..n - 1];
      assert n - 1 < |init| ==> init[|init| - (n - 1) - 1] == s[|s| - n - 1];
      TrailingRunUnique(init, drop, n - 1);
    }
  }

  /** Python's `s.strip(chars)` where `drop` is the set of `chars`. */
  function Strip(s: string, drop: set<char>): (r: string)
    ensures |r| <= |s|
    ensures r == [] || (r[0] !in drop && r[|r| - 1] !in drop)
  {
    var i := LeadingRun(s, drop);
    var n := TrailingRun(s[i..], drop);
    var r := s[i..|s| - n];
    assert r != [] ==> r[0] == s[i] && r[|r| - 1] == s[i..][|s[i..]| - n - 1];
    r
  }

  /** Python's `s.strip()`. */
  function StripSpace(s: string): (r: string)
    ensures |r| <= |s|
    ensures r == [] || (r[0] !in Whitespace && r[|r| - 1] !in Whitespace)
  {
    Strip(s, Whitespace)
  }

  lemma Concat3(s: string, i: nat, j: nat)
    requires i <= j <= |s|
    ensures s == s[..i] + s[i..j] + s[j..]
  {
    assert s == s[..i] + s[i..];
    assert s[i..] == s[i..j] + s[j..];
  }

  /**
   What strip removes is exactly a run of `drop` characters at each end:
   `s` is that prefix, then the result, then that suffix.
   */
  lemma StripSplits(s: string, drop: set<char>) returns (p: string, q: string)
    ensures s == p + Strip(s, drop) + q
    ensures AllIn(p, drop) && AllIn(q, drop)
  {
    var i := LeadingRun(s, drop);
    var n := TrailingRun(s[i..], drop);
    p, q := s[..i], s[|s| - n..];
    assert s[i..][|s[i..]| - n..] == q;
    Concat3(s, i, |s| - n);
  }

  /**
   Strip is characterised by its result: any split of `s` into a `drop`-only
   prefix, a middle that neither starts nor ends with a `drop` character, and a
   `drop`-only suffix has `Strip(s, drop)` as its middle.
   */
  lemma StripUnique(s: string, drop: set<char>, p: string, m: string, q: string)
    requires s == p + m + q
    requires AllIn(p, drop) && AllIn(q, drop)
    requires m == [] || (m[0] !in drop && m[|m| - 1] !in drop)
    ensures Strip(s, drop) == m
  {
    if m == [] {
      assert AllIn(s[..|s|], drop) by {
        assert forall k :: 0 <= k < |s| ==> s[k] == if k < |p| then p[k] else q[k - |p|];
      }
      LeadingRunUnique(s, drop, |s|);
    } else {
      assert s[..|p|] == p && s[|p|] == m[0];
      LeadingRunUnique(s, drop, |p|);
      var rest := s[|p|..];
      assert rest == m + q;
      assert rest[|rest| - |q|..] == q && rest[|rest| - |q| - 1] == m[|m| - 1];
      TrailingRunUnique(rest, drop, |q|);
      assert s[|p|..|s| - |q|] == m;
    }
  }

  /** Stripping twice removes nothing more. */
  lemma StripIdempotent(s: string, drop: set<char>)
    ensures Strip(Strip(s, drop), drop) == Strip(s, drop)
  {
    var r := Strip(s, drop);
    assert r == [] + r + [] && AllIn([], drop);
    StripUnique(r, drop, [], r, []);
  }
}
