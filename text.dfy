/** Python's `str.strip()` with no argument, which both handlers apply to the
    submitted URL and to every review before measuring its length. */
module Text {

  /** The code points for which Python's `str.isspace()` holds. */
  predicate IsSpace(c: char)
  {
    var n := c as int;
    (9 <= n <= 13) || (28 <= n <= 32) || n == 0x85 || n == 0xA0 || n == 0x1680
    || (0x2000 <= n <= 0x200A) || n == 0x2028 || n == 0x2029 || n == 0x202F
    || n == 0x205F || n == 0x3000
  }

  predicate AllSpace(s: string)
  {
    forall k :: 0 <= k < |s| ==> IsSpace(s[k])
  }

  /** `s` without its leading whitespace. */
  function TrimStart(s: string): string
  {
    if s != [] && IsSpace(s[0]) then TrimStart(s[1..]) else s
  }

  /** `s` without its trailing whitespace. */
  function TrimEnd(s: string): string
  {
    if s != [] && IsSpace(s[|s| - 1]) then TrimEnd(s[..|s| - 1]) else s
  }

  /** `s.strip()`. */
  function Strip(s: string): string
  {
    TrimEnd(TrimStart(s))
  }

  /** What `TrimStart` removes is exactly the leading whitespace: the result is
      a suffix, everything before it is whitespace, and it does not itself
      start with whitespace. */
  lemma {:induction false} TrimStartShape(s: string)
    ensures var r := TrimStart(s);
            |r| <= |s| && r == s[|s| - |r|..] && AllSpace(s[..|s| - |r|])
            && (r == [] || !IsSpace(r[0]))
  {
    if s != [] && IsSpace(s[0]) {
      TrimStartShape(s[1..]);
      var r := TrimStart(s);
      assert r == TrimStart(s[1..]);
      var n := |s| - |r|;
      assert s[1..][..n - 1] == s[1..n];
      assert forall k :: 1 <= k < n ==> s[k] == s[1..n][k - 1];
    } else {
      assert s[..0] == [];
    }
  }

  /** What `TrimEnd` removes is exactly the trailing whitespace. */
  lemma {:induction false} TrimEndShape(s: string)
    ensures var r := TrimEnd(s);
            |r| <= |s| && r == s[..|r|] && AllSpace(s[|r|..])
            && (r == [] || !IsSpace(r[|r| - 1]))
  {
    if s != [] && IsSpace(s[|s| - 1]) {
      var init := s[..|s| - 1];
      TrimEndShape(init);
      var r := TrimEnd(s);
      assert r == TrimEnd(init);
      assert init[..|r|] == s[..|r|];
      assert forall k :: |r| <= k < |s| - 1 ==> s[k] == init[|r|..][k - |r|];
    } else {
      assert s[|s|..] == [];
    }
  }

  /** `s.strip()` is a piece of `s` that neither starts nor ends with
      whitespace. */
  lemma StripShape(s: string)
    ensures |Strip(s)| <= |s|
    ensures Strip(s) == [] || (!IsSpace(Strip(s)[0]) && !IsSpace(Strip(s)[|Strip(s)| - 1]))
    ensures exists i, j :: 0 <= i <= j <= |s| && Strip(s) == s[i..j]
  {
    TrimStartShape(s);
    TrimEndShape(TrimStart(s));
    var t := TrimStart(s);
    var i := |s| - |t|;
    var j := i + |Strip(s)|;
    assert t == s[i..];
    assert Strip(s) == t[..|Strip(s)|];
    assert Strip(s) == s[i..j];
  }

  /** Leading whitespace is exactly the first `m` characters when they are all
      spaces and character `m` (if any) is not. */
  lemma TrimStartAt(s: string, m: nat)
    requires m <= |s| && AllSpace(s[..m])
    requires m == |s| || !IsSpace(s[m])
    ensures TrimStart(s) == s[m..]
  {
    TrimStartShape(s);
    var r := TrimStart(s);
    var n := |s| - |r|;
    if n < m {
      assert false;
    } else if n > m {
      assert false;
    }
  }

  lemma TrimEndAt(s: string, m: nat)
    requires m <= |s| && AllSpace(s[m..])
    requires m == 0 || !IsSpace(s[m - 1])
    ensures TrimEnd(s) == s[..m]
  {
    TrimEndShape(s);
    var r := TrimEnd(s);
    var n := |r|;
    if n > m {
      assert false;
    } else if n < m {
      assert false;
    }
  }

  /** Surrounding whitespace does not count: stripping a text padded on both
      sides gives back the text. */
  lemma StripPadding(before: string, core: string, after: string)
    requires AllSpace(before) && AllSpace(after)
    requires core == [] || (!IsSpace(core[0]) && !IsSpace(core[|core| - 1]))
    ensures Strip(before + core + after) == core
  {
    var s := before + core + after;
    if core == [] {
      assert s[..|s|] == s;
      assert AllSpace(s) by {
        forall k | 0 <= k < |s| ensures IsSpace(s[k]) {
          if k < |before| { assert s[k] == before[k]; } else { assert s[k] == after[k - |before|]; }
        }
      }
      TrimStartAt(s, |s|);
    } else {
      assert s[..|before|] == before;
      assert s[|before|] == core[0];
      TrimStartAt(s, |before|);
      var t := s[|before|..];
      assert t == core + after;
      assert t[|core|..] == after;
      assert t[|core| - 1] == core[|core| - 1];
      TrimEndAt(t, |core|);
      assert t[..|core|] == core;
    }
  }

  /** Text that neither starts nor ends with whitespace is left as it is. */
  lemma StripUnpadded(s: string)
    requires s == [] || (!IsSpace(s[0]) && !IsSpace(s[|s| - 1]))
    ensures Strip(s) == s
  {
    StripPadding([], s, []);
    assert [] + s + [] == s;
  }

  /** Stripping twice is stripping once. */
  lemma StripIdempotent(s: string)
    ensures Strip(Strip(s)) == Strip(s)
  {
    StripShape(s);
    StripUnpadded(Strip(s));
  }
}
