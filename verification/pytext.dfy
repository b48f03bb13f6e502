/** The few Python string operations the scraper relies on: `str.strip`, with
    and without an explicit character set, and the substring test `t in s`. */
module PyText {

  /** The characters for which Python's `str.isspace()` holds; `str.strip()`
      with no argument removes exactly these. */
  const Whitespace: set<char> := {
    '\t', '\n', '\U{000B}', '\U{000C}', '\r',
    '\U{001C}', '\U{001D}', '\U{001E}', '\U{001F}', ' ',
    '\U{0085}', '\U{00A0}', '\U{1680}',
    '\U{2000}', '\U{2001}', '\U{2002}', '\U{2003}', '\U{2004}', '\U{2005}',
    '\U{2006}', '\U{2007}', '\U{2008}', '\U{2009}', '\U{200A}',
    '\U{2028}', '\U{2029}', '\U{202F}', '\U{205F}', '\U{3000}'
  }

  /** Every character of `s` is one of `chars`. */
  predicate AllIn(s: string, chars: set<char>)
  {
    forall k :: 0 <= k < |s| ==> s[k] in chars
  }

  /** `r` neither starts nor ends with one of `chars`. */
  predicate Bare(r: string, chars: set<char>)
  {
    r == [] || (r[0] !in chars && r[|r| - 1] !in chars)
  }

  /** `r` sits at position `i` of `s`, with only `chars` before and after it. */
  predicate FramedAt(s: string, r: string, chars: set<char>, i: int)
  {
    0 <= i <= |s| - |r| && s[i..i + |r|] == r && AllIn(s[..i], chars) && AllIn(s[i + |r|..], chars)
  }

  /** `r` is `s` with some run of `chars` removed from each end. */
  ghost predicate Framed(s: string, r: string, chars: set<char>)
  {
    exists i :: FramedAt(s, r, chars, i)
  }

  /** Python's `s.lstrip(chars)`. */
  function LStrip(s: string, chars: set<char>): (r: string)
    ensures |r| <= |s| && r == s[|s| - |r|..]
    ensures AllIn(s[..|s| - |r|], chars)
    ensures r == [] || r[0] !in chars
  {
    if s != [] && s[0] in chars then
      var r := LStrip(s[1..], chars);
      assert s[..|s| - |r|] == [s[0]] + s[1..][..|s| - 1 - |r|];
      r
    else s
  }

  /** Python's `s.rstrip(chars)`. */
  function RStrip(s: string, chars: set<char>): (r: string)
    ensures |r| <= |s| && r == s[..|r|]
    ensures AllIn(s[|r|..], chars)
    ensures r == [] || r[|r| - 1] !in chars
  {
    if s != [] && s[|s| - 1] in chars then
      var r := RStrip(s[..|s| - 1], chars);
      assert s[|r|..] == s[..|s| - 1][|r|..] + [s[|s| - 1]];
      r
    else s
  }

  /** Python's `s.strip(chars)`: every leading and every trailing character
      that `chars` holds is removed, not just one of each. */
  function Strip(s: string, chars: set<char>): (r: string)
    ensures Framed(s, r, chars)
    ensures Bare(r, chars)
  {
    var l := LStrip(s, chars);
    var r := RStrip(l, chars);
    var i := |s| - |l|;
    assert s[i..i + |r|] == r;
    assert s[i + |r|..] == l[|r|..];
    assert FramedAt(s, r, chars, i);
    r
  }

  /** Python's `s.strip()`. */
  function Trim(s: string): string
  {
    Strip(s, Whitespace)
  }

  /** Once its leading run of `chars` is known, `LStrip` keeps the rest. */
  lemma {:induction false} LStripAt(s: string, chars: set<char>, i: nat)
    requires i <= |s| && AllIn(s[..i], chars)
    requires i == |s| || s[i] !in chars
    ensures LStrip(s, chars) == s[i..]
    decreases i
  {
    if i > 0 {
      assert s[1..][..i - 1] == s[..i][1..];
      LStripAt(s[1..], chars, i - 1);
      assert s[1..][i - 1..] == s[i..];
    }
  }

  /** Once its trailing run of `chars` is known, `RStrip` keeps the rest. */
  lemma {:induction false} RStripAt(s: string, chars: set<char>, j: nat)
    requires j <= |s| && AllIn(s[j..], chars)
    requires j == 0 || s[j - 1] !in chars
    ensures RStrip(s, chars) == s[..j]
    decreases |s| - j
  {
    if j < |s| {
      var t := s[..|s| - 1];
      assert t[j..] == s[j..|s| - 1];
      RStripAt(t, chars, j);
      assert t[..j] == s[..j];
    }
  }

  /** Framing `s` by runs of `chars` around a bare middle leaves no choice:
      the middle is what `Strip` returns. Together with `Strip`'s own contract
      this characterises Python's `strip` completely. */
  lemma StripUnique(s: string, chars: set<char>, r: string)
    requires Framed(s, r, chars) && Bare(r, chars)
    ensures r == Strip(s, chars)
  {
    var i :| FramedAt(s, r, chars, i);
    if r == [] {
      StripOfAllIn(s, chars, i);
    } else {
      assert s[i] == r[0];
      LStripAt(s, chars, i);
      var l := s[i..];
      assert l[..|r|] == r;
      assert l[|r|..] == s[i + |r|..];
      RStripAt(l, chars, |r|);
    }
  }

  /** A string made only of `chars` strips to nothing. */
  lemma StripOfAllIn(s: string, chars: set<char>, i: int)
    requires 0 <= i <= |s| && AllIn(s[..i], chars) && AllIn(s[i..], chars)
    ensures Strip(s, chars) == []
  {
    assert AllIn(s, chars) by {
      forall k | 0 <= k < |s| ensures s[k] in chars {
        if k < i { assert s[..i][k] == s[k]; } else { assert s[i..][k - i] == s[k]; }
      }
    }
    LStripAt(s, chars, |s|);
  }

  /** Stripping leaves nothing exactly when `s` consists of `chars` only. */
  lemma StripEmptyIff(s: string, chars: set<char>)
    ensures Strip(s, chars) == [] <==> AllIn(s, chars)
  {
    if AllIn(s, chars) {
      assert s[..0] == [] && s[0..] == s;
      StripOfAllIn(s, chars, 0);
    } else if Strip(s, chars) == [] {
      var i :| FramedAt(s, [], chars, i);
      assert AllIn(s, chars) by {
        forall k | 0 <= k < |s| ensures s[k] in chars {
          if k < i { assert s[..i][k] == s[k]; } else { assert s[i..][k - i] == s[k]; }
        }
      }
    }
  }

  /** Python's `t in s` on strings: `t` occurs in `s` as a block. */
  predicate Contains(s: string, t: string)
    decreases |s|
  {
    |t| <= |s| && (s[..|t|] == t || Contains(s[1..], t))
  }

  /** `t` occurs in `s` starting at position `i`. */
  predicate OccursAt(s: string, t: string, i: int)
  {
    0 <= i <= |s| - |t| && s[i..i + |t|] == t
  }

  /** The recursive substring test agrees with "`t` occurs at some position of `s`". */
  lemma {:induction false} ContainsIff(s: string, t: string)
    ensures Contains(s, t) <==> exists i :: OccursAt(s, t, i)
    decreases |s|
  {
    if |t| <= |s| && s[..|t|] != t {
      ContainsIff(s[1..], t);
      if Contains(s[1..], t) {
        var i :| OccursAt(s[1..], t, i);
        assert s[1..][i..i + |t|] == s[i + 1..i + 1 + |t|];
        assert OccursAt(s, t, i + 1);
      } else {
        forall i | OccursAt(s, t, i) ensures i > 0 && OccursAt(s[1..], t, i - 1) {
          assert s[..|t|] == s[0..|t|];
          assert s[1..][i - 1..i - 1 + |t|] == s[i..i + |t|];
        }
      }
    } else if |t| <= |s| {
      assert OccursAt(s, t, 0);
    }
  }
}
