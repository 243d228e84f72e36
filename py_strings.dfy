/**
  Python's `str.strip()`, `str.lstrip()` and `str.rstrip()` called without an
  argument, on Dafny strings (sequences of Unicode scalar values).
 */
module PyStrings {

  /** `str.isspace()` on a single character: the code points CPython
      classifies as whitespace. */
  predicate IsSpace(c: char)
  {
    var n := c as int;
    || (0x09 <= n <= 0x0D)
    || (0x1C <= n <= 0x20)
    || n == 0x85
    || n == 0xA0
    || n == 0x1680
    || (0x2000 <= n <= 0x200A)
    || n == 0x2028
    || n == 0x2029
    || n == 0x202F
    || n == 0x205F
    || n == 0x3000
  }

  /** Every character of `s` is whitespace (true of the empty string). */
  predicate AllSpace(s: string)
  {
    forall i :: 0 <= i < |s| ==> IsSpace(s[i])
  }

  /** `s.lstrip()`: `s` without its leading whitespace. */
  function LStrip(s: string): (r: string)
  {
    if |s| > 0 && IsSpace(s[0]) then LStrip(s[1..]) else s
  }

  /** `s.rstrip()`: `s` without its trailing whitespace. */
  function RStrip(s: string): (r: string)
  {
    if |s| > 0 && IsSpace(s[|s| - 1]) then RStrip(s[..|s| - 1]) else s
  }

  /** `s.strip()`: `s` without its leading and trailing whitespace. */
  function Strip(s: string): (r: string)
  {
    RStrip(LStrip(s))
  }

  /** `lstrip()` removes the longest all-whitespace prefix and nothing else. */
  lemma {:induction false} LStripSpec(s: string)
    ensures var r := LStrip(s);
      && |r| <= |s| && r == s[|s| - |r|..]
      && AllSpace(s[..|s| - |r|])
      && (r == [] || !IsSpace(r[0]))
  {
    if |s| > 0 && IsSpace(s[0]) {
      var r := LStrip(s[1..]);
      LStripSpec(s[1..]);
      assert s[..|s| - |r|] == [s[0]] + s[1..][..|s| - 1 - |r|];
    }
  }

  /** `rstrip()` removes the longest all-whitespace suffix and nothing else. */
  lemma {:induction false} RStripSpec(s: string)
    ensures var r := RStrip(s);
      && |r| <= |s| && r == s[..|r|]
      && AllSpace(s[|r|..])
      && (r == [] || !IsSpace(r[|r| - 1]))
  {
    if |s| > 0 && IsSpace(s[|s| - 1]) {
      var r := RStrip(s[..|s| - 1]);
      RStripSpec(s[..|s| - 1]);
      assert s[|r|..] == s[..|s| - 1][|r|..] + [s[|s| - 1]];
    }
  }

  /**
    `strip()` leaves the infix of `s` that starts after its leading whitespace
    and neither starts nor ends with whitespace; what it removes on either
    side is all whitespace.
   */
  lemma StripSpec(s: string)
    ensures var r, i := Strip(s), |s| - |LStrip(s)|;
      && 0 <= i && i + |r| <= |s| && r == s[i..i + |r|]
      && AllSpace(s[..i]) && AllSpace(s[i + |r|..])
      && (r == [] || (!IsSpace(r[0]) && !IsSpace(r[|r| - 1])))
  {
    var t := LStrip(s);
    var r := RStrip(t);
    var i := |s| - |t|;
    LStripSpec(s);
    RStripSpec(t);
    assert t == s[i..];
    assert r == s[i..i + |r|];
    assert s[i + |r|..] == t[|r|..];
  }

  /** Leading whitespace is stripped across a concatenation: it reaches into
      `b` exactly when `a` is all whitespace. */
  lemma {:induction false} LStripConcat(a: string, b: string)
    ensures LStrip(a + b) == if AllSpace(a) then LStrip(b) else LStrip(a) + b
  {
    if |a| == 0 {
      assert a + b == b;
    } else {
      assert (a + b)[0] == a[0];
      assert (a + b)[1..] == a[1..] + b;
      LStripConcat(a[1..], b);
      if IsSpace(a[0]) {
        assert AllSpace(a) <==> AllSpace(a[1..]) by {
          if AllSpace(a[1..]) {
            forall i | 0 <= i < |a| ensures IsSpace(a[i]) {
              if i > 0 { assert a[i] == a[1..][i - 1]; }
            }
          }
        }
      } else {
        assert !AllSpace(a);
      }
    }
  }

  /** A string that ends in a non-whitespace character is its own `rstrip()`. */
  lemma RStripNonSpaceEnd(s: string)
    requires |s| > 0 && !IsSpace(s[|s| - 1])
    ensures RStrip(s) == s
  {
  }

  /** One leading space is dropped from a string that continues with non-whitespace. */
  lemma LStripOneSpace(t: string)
    requires |t| > 0 && !IsSpace(t[0])
    ensures LStrip(" " + t) == t
  {
  }

  /** `(a + " " + t).lstrip()` splits on whether `a` is all whitespace. */
  lemma LStripSeparated(a: string, t: string)
    ensures LStrip(a + " " + t) == if AllSpace(a) then LStrip(" " + t) else LStrip(a) + " " + t
  {
    assert a + " " + t == a + (" " + t);
    LStripConcat(a, " " + t);
  }

  /**
    `(a + " " + t).strip()` for a `t` that begins and ends with non-whitespace:
    when `a` is all whitespace (or empty) the result is `t` alone; otherwise it
    is `a` without its leading whitespace, a space, then `t`.
   */
  lemma StripAppend(a: string, t: string)
    requires |t| > 0 && !IsSpace(t[0]) && !IsSpace(t[|t| - 1])
    ensures Strip(a + " " + t) == if AllSpace(a) then t else LStrip(a) + " " + t
  {
    LStripSeparated(a, t);
    LStripOneSpace(t);
    var u := if AllSpace(a) then t else LStrip(a) + " " + t;
    assert u[|u| - 1] == t[|t| - 1];
    RStripNonSpaceEnd(u);
  }
}
