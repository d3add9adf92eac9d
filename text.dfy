/**
 * The two string operations the pipeline relies on: Python's `str.strip()` (applied to
 * every scraped review text) and `str.split(sep)` with a one-character separator (used
 * to take the product name from the url).
 */
module Text {

  /**
   * `str.isspace()` for one character: the ASCII controls 0x09-0x0D and 0x1C-0x1F, the
   * space, and the Unicode separators Python counts as whitespace.
   */
  predicate IsSpace(c: char)
  {
    || ('\t' <= c <= '\r')
    || ('\U{1C}' <= c <= '\U{1F}')
    || c == ' '
    || c == '\U{85}'
    || c == '\U{A0}'
    || c == '\U{1680}'
    || ('\U{2000}' <= c <= '\U{200A}')
    || c == '\U{2028}'
    || c == '\U{2029}'
    || c == '\U{202F}'
    || c == '\U{205F}'
    || c == '\U{3000}'
  }

  ghost predicate AllSpace(s: string)
  {
    forall i :: 0 <= i < |s| ==> IsSpace(s[i])
  }

  /** Neither end of `s` is whitespace (vacuous for the empty string). */
  ghost predicate Trimmed(s: string)
  {
    s != [] ==> !IsSpace(s[0]) && !IsSpace(s[|s| - 1])
  }

  /** The length of the leading run of whitespace. */
  function LeadCount(s: string): (n: nat)
    ensures n <= |s| && AllSpace(s[..n])
    ensures n < |s| ==> !IsSpace(s[n])
  {
    if s == [] || !IsSpace(s[0]) then 0
    else
      var n := 1 + LeadCount(s[1..]);
      assert s[..n] == [s[0]] + s[1..][..n - 1];
      n
  }

  /** The end of `s` once the trailing run of whitespace is removed. */
  function TrailEnd(s: string): (n: nat)
    ensures n <= |s| && AllSpace(s[n..])
    ensures n > 0 ==> !IsSpace(s[n - 1])
  {
    if s == [] || !IsSpace(s[|s| - 1]) then |s|
    else
      var n := TrailEnd(s[..|s| - 1]);
      assert s[n..] == s[..|s| - 1][n..] + [s[|s| - 1]];
      n
  }

  /**
   * The cut points of `Strip`, from what `LeadCount` and `TrailEnd` promise: only
   * whitespace after the second, and a trimmed infix between them.
   */
  lemma CutPoints(s: string, i: nat, n: nat)
    requires i <= |s| && (i < |s| ==> !IsSpace(s[i]))
    requires n <= |s[i..]| && AllSpace(s[i..][n..]) && (n > 0 ==> !IsSpace(s[i..][n - 1]))
    ensures i + n <= |s| && AllSpace(s[i + n..])
    ensures Trimmed(s[i..i + n])
  {
    SuffixOfSuffix(s, i, n);
    if n > 0 {
      LastOfSuffix(s, i, n);
      var u := s[i..i + n];
      assert u[0] == s[i] && u[|u| - 1] == s[i + n - 1];
    }
  }

  lemma SuffixOfSuffix(s: string, i: nat, n: nat)
    requires i + n <= |s| && AllSpace(s[i..][n..])
    ensures AllSpace(s[i + n..])
  {
    assert s[i..][n..] == s[i + n..];
  }

  lemma LastOfSuffix(s: string, i: nat, n: nat)
    requires 0 < n && i + n <= |s| && !IsSpace(s[i..][n - 1])
    ensures !IsSpace(s[i + n - 1])
  {
    assert s[i..][n - 1] == s[i + n - 1];
  }

  /** The cut points meet exactly when the whole string is whitespace. */
  lemma CutPointsMeet(s: string, i: nat, j: nat)
    requires i == LeadCount(s) && j == i + TrailEnd(s[i..])
    ensures i == j <==> AllSpace(s)
  {
    assert i < |s| ==> s[i..][0] == s[i];
    if i == j {
      assert i == |s|;
      forall k | 0 <= k < |s| ensures IsSpace(s[k]) {
        assert s[..i][k] == s[k];
      }
    }
  }

  /**
   * `s.strip()`: the infix left once leading and trailing whitespace is removed. It is
   * empty exactly when `s` is all whitespace, and otherwise starts and ends with a
   * non-whitespace character.
   */
  function Strip(s: string): (r: string)
    ensures exists i, j :: 0 <= i <= j <= |s| && r == s[i..j] && AllSpace(s[..i]) && AllSpace(s[j..])
    ensures Trimmed(r)
    ensures r == [] <==> AllSpace(s)
  {
    var i := LeadCount(s);
    var j := i + TrailEnd(s[i..]);
    CutPoints(s, i, j - i);
    CutPointsMeet(s, i, j);
    s[i..j]
  }

  lemma {:induction false} LeadCountPadded(pre: string, t: string)
    requires AllSpace(pre) && (t == [] || !IsSpace(t[0]))
    ensures LeadCount(pre + t) == |pre|
  {
    if pre != [] {
      assert (pre + t)[0] == pre[0] && (pre + t)[1..] == pre[1..] + t;
      LeadCountPadded(pre[1..], t);
    }
  }

  lemma {:induction false} TrailEndPadded(t: string, post: string)
    requires AllSpace(post) && (t == [] || !IsSpace(t[|t| - 1]))
    ensures TrailEnd(t + post) == |t|
  {
    if post != [] {
      var u := t + post;
      assert u[|u| - 1] == post[|post| - 1] && u[..|u| - 1] == t + post[..|post| - 1];
      TrailEndPadded(t, post[..|post| - 1]);
    }
  }

  /** Whitespace padding around a trimmed core is exactly what `strip` removes. */
  lemma StripOfPadded(pre: string, core: string, post: string)
    requires AllSpace(pre) && AllSpace(post) && Trimmed(core)
    ensures Strip(pre + core + post) == core
  {
    var s := pre + core + post;
    if core == [] {
      forall k | 0 <= k < |s| ensures IsSpace(s[k]) {
        if k < |pre| { assert s[k] == pre[k]; } else { assert s[k] == post[k - |pre|]; }
      }
    } else {
      assert s == pre + (core + post);
      LeadCountPadded(pre, core + post);
      assert s[|pre|..] == core + post;
      TrailEndPadded(core, post);
      assert s[|pre|..|pre| + |core|] == core;
    }
  }

  /** Stripping twice strips nothing more. */
  lemma StripIdempotent(s: string)
    ensures Strip(Strip(s)) == Strip(s)
  {
    StripOfPadded([], Strip(s), []);
    assert [] + Strip(s) + [] == Strip(s);
  }

  // ---------------------------------------------------------------------------
  // str.split with a one-character separator

  /** `s.split(sep)`: the pieces between occurrences of `sep`, always at least one. */
  function Split(s: string, sep: char): (parts: seq<string>)
    ensures |parts| >= 1
    ensures forall p :: p in parts ==> sep !in p
  {
    if s == [] then [[]]
    else
      var init, c := Split(s[..|s| - 1], sep), s[|s| - 1];
      if c == sep then init + [[]]
      else
        var last := init[|init| - 1] + [c];
        assert forall p :: p in init[..|init| - 1] ==> p in init;
        init[..|init| - 1] + [last]
  }

  /** `sep.join(parts)`. */
  function Join(parts: seq<string>, sep: char): string
    requires |parts| >= 1
  {
    if |parts| == 1 then parts[0]
    else Join(parts[..|parts| - 1], sep) + [sep] + parts[|parts| - 1]
  }

  /** Joining the pieces with the separator gives back the string. */
  lemma {:induction false} JoinSplit(s: string, sep: char)
    ensures Join(Split(s, sep), sep) == s
  {
    if s != [] {
      var t, c := s[..|s| - 1], s[|s| - 1];
      assert s == t + [c];
      var init := Split(t, sep);
      JoinSplit(t, sep);
      if c == sep {
        assert (init + [[]])[..|init|] == init;
      } else {
        var parts := Split(s, sep);
        var last := init[|init| - 1];
        assert parts[..|parts| - 1] == init[..|init| - 1];
        if |init| == 1 {
          assert Join(init, sep) == last;
        } else {
          assert Join(init, sep) == Join(init[..|init| - 1], sep) + [sep] + last;
        }
      }
    }
  }

  /** Splitting a join of separator-free pieces gives back the pieces. */
  lemma {:induction false} SplitJoin(parts: seq<string>, sep: char)
    requires |parts| >= 1 && forall i :: 0 <= i < |parts| ==> sep !in parts[i]
    ensures Split(Join(parts, sep), sep) == parts
  {
    if |parts| == 1 {
      SplitSepFree(parts[0], sep);
    } else {
      var init, p := parts[..|parts| - 1], parts[|parts| - 1];
      SplitJoin(init, sep);
      SplitAppend(Join(init, sep), p, sep);
      assert init + [p] == parts;
    }
  }

  /** A separator-free string is a single piece. */
  lemma {:induction false} SplitSepFree(s: string, sep: char)
    requires sep !in s
    ensures Split(s, sep) == [s]
  {
    if s != [] {
      assert s[..|s| - 1] + [s[|s| - 1]] == s;
      SplitSepFree(s[..|s| - 1], sep);
    }
  }

  /** Appending a separator and a separator-free piece adds that piece. */
  lemma {:induction false} SplitAppend(t: string, p: string, sep: char)
    requires sep !in p
    ensures Split(t + [sep] + p, sep) == Split(t, sep) + [p]
  {
    if p == [] {
      assert (t + [sep])[..|t|] == t;
      assert t + [sep] + p == t + [sep];
    } else {
      var q, c := p[..|p| - 1], p[|p| - 1];
      assert p == q + [c];
      SplitAppend(t, q, sep);
      var u := t + [sep] + q;
      assert t + [sep] + p == u + [c];
      assert (u + [c])[..|u|] == u;
    }
  }

  /**
   * `s.split(sep)[-1]`: has no separator, is a suffix of `s`, and is either all of `s`
   * (no separator occurs) or directly preceded by a separator.
   */
  lemma {:induction false} LastPieceIsSuffix(s: string, sep: char)
    ensures var parts := Split(s, sep);
      var last := parts[|parts| - 1];
      && sep !in last
      && |last| <= |s|
      && s[|s| - |last|..] == last
      && (sep !in s <==> last == s)
      && (|last| < |s| ==> s[|s| - |last| - 1] == sep)
  {
    var parts := Split(s, sep);
    var last := parts[|parts| - 1];
    assert last in parts;
    if s != [] {
      var t, c := s[..|s| - 1], s[|s| - 1];
      assert s == t + [c];
      LastPieceIsSuffix(t, sep);
      var init := Split(t, sep);
      var prev := init[|init| - 1];
      if c == sep {
        assert last == [];
        assert sep in s;
      } else {
        assert last == prev + [c];
        assert s[|s| - |last|..] == t[|t| - |prev|..] + [c];
        if sep in s {
          var k :| 0 <= k < |s| && s[k] == sep;
          assert k < |t| && t[k] == sep;
        }
      }
    }
  }
}
