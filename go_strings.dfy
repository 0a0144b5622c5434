/** The parts of Go's `strings` and `unicode` packages that the task engine
    uses: `strings.TrimSpace` and `strings.ToLower`, on strings seen as
    sequences of Unicode code points. */
module GoStrings {

  /** `unicode.IsSpace`: the Latin-1 spaces and every other code point with
      the Unicode White_Space property. */
  predicate IsSpace(c: char) {
    || c == '\t' || c == '\n' || c == '\U{000B}' || c == '\U{000C}' || c == '\r' || c == ' '
    || c == '\U{0085}' || c == '\U{00A0}' || c == '\U{1680}'
    || ('\U{2000}' <= c <= '\U{200A}')
    || c == '\U{2028}' || c == '\U{2029}' || c == '\U{202F}' || c == '\U{205F}' || c == '\U{3000}'
  }

  predicate AllSpace(s: string) {
    forall k :: 0 <= k < |s| ==> IsSpace(s[k])
  }

  /** Drops the leading white space (`strings.TrimLeftFunc` with
      `unicode.IsSpace`). */
  function TrimLeft(s: string): string {
    if s != [] && IsSpace(s[0]) then TrimLeft(s[1..]) else s
  }

  /** Drops the trailing white space (`strings.TrimRightFunc` with
      `unicode.IsSpace`). */
  function TrimRight(s: string): string {
    if s != [] && IsSpace(s[|s| - 1]) then TrimRight(s[..|s| - 1]) else s
  }

  /** `strings.TrimSpace`: drops the white space at both ends of `s`. */
  function TrimSpace(s: string): string {
    TrimRight(TrimLeft(s))
  }

  /** `TrimLeft` keeps a suffix of `s`, what it drops is all white space, and
      what it keeps does not start with white space. */
  lemma {:induction false} TrimLeftKeepsSuffix(s: string)
    ensures var r := TrimLeft(s);
            && |r| <= |s| && r == s[|s| - |r|..]
            && (forall k :: 0 <= k < |s| - |r| ==> IsSpace(s[k]))
            && (r != [] ==> !IsSpace(r[0]))
  {
    if s != [] && IsSpace(s[0]) {
      TrimLeftKeepsSuffix(s[1..]);
      var r := TrimLeft(s[1..]);
      assert s[1..][|s| - 1 - |r|..] == s[|s| - |r|..];
      forall k | 1 <= k < |s| - |r| ensures IsSpace(s[k]) {
        assert s[k] == s[1..][k - 1];
      }
    }
  }

  /** `TrimRight` keeps a prefix of `s`, what it drops is all white space, and
      what it keeps does not end with white space. */
  lemma {:induction false} TrimRightKeepsPrefix(s: string)
    ensures var r := TrimRight(s);
            && |r| <= |s| && r == s[..|r|]
            && (forall k :: |r| <= k < |s| ==> IsSpace(s[k]))
            && (r != [] ==> !IsSpace(r[|r| - 1]))
  {
    if s != [] && IsSpace(s[|s| - 1]) {
      var init := s[..|s| - 1];
      TrimRightKeepsPrefix(init);
      var r := TrimRight(init);
      assert init[..|r|] == s[..|r|];
      forall k | |r| <= k < |s| - 1 ensures IsSpace(s[k]) {
        assert s[k] == init[k];
      }
    }
  }

  /** The result of `TrimSpace` is empty exactly when `s` is all white space,
      and otherwise neither starts nor ends with white space. */
  lemma TrimSpaceEnds(s: string)
    ensures var r := TrimSpace(s);
            && (r != [] ==> !IsSpace(r[0]) && !IsSpace(r[|r| - 1]))
            && (r == [] <==> AllSpace(s))
  {
    var left := TrimLeft(s);
    TrimLeftKeepsSuffix(s);
    TrimRightKeepsPrefix(left);
    var r := TrimRight(left);
    assert r != [] ==> r[0] == left[0] == s[|s| - |left|];
  }

  /** What `TrimSpace` drops is white space at the two ends of `s`: the result
      is the slice `s[i..i + |r|]` with only white space outside it. */
  lemma TrimSpaceIsSlice(s: string)
    ensures var r, i := TrimSpace(s), |s| - |TrimLeft(s)|;
            && 0 <= i && i + |r| <= |s| && r == s[i..i + |r|]
            && (forall k :: 0 <= k < i ==> IsSpace(s[k]))
            && (forall k :: i + |r| <= k < |s| ==> IsSpace(s[k]))
  {
    var left := TrimLeft(s);
    TrimLeftKeepsSuffix(s);
    TrimRightKeepsPrefix(left);
    var r := TrimRight(left);
    var i := |s| - |left|;
    assert r == left[..|r|];
    assert r == s[i..i + |r|];
    forall k | i + |r| <= k < |s| ensures IsSpace(s[k]) {
      assert s[k] == left[k - i];
    }
  }

  /** `unicode.ToLower` on the letters whose lower case is ASCII: `A`..`Z`,
      U+0130 (capital I with dot above) and U+212A (Kelvin sign). Every other
      code point is kept as it is. */
  function LowerRune(c: char): (d: char)
  {
    if 'A' <= c <= 'Z' then (c as int + ('a' as int - 'A' as int)) as char
    else if c == '\U{0130}' then 'i'
    else if c == '\U{212A}' then 'k'
    else c
  }

  /** `strings.ToLower`, code point by code point. */
  function ToLower(s: string): (r: string)
    ensures |r| == |s|
  {
    if s == [] then [] else [LowerRune(s[0])] + ToLower(s[1..])
  }

  /** Lower-casing never turns white space into something else, nor anything
      else into white space. */
  lemma LowerRuneKeepsSpace(c: char)
    ensures IsSpace(LowerRune(c)) <==> IsSpace(c)
    ensures IsSpace(c) ==> LowerRune(c) == c
  {
  }

  /** Lower-casing an already lower-cased code point changes nothing. */
  lemma LowerRuneIdempotent(c: char)
    ensures LowerRune(LowerRune(c)) == LowerRune(c)
  {
  }

  /** `strings.ToLower` works code point by code point: it distributes over
      concatenation. */
  lemma {:induction false} ToLowerAppend(a: string, b: string)
    ensures ToLower(a + b) == ToLower(a) + ToLower(b)
  {
    if a != [] {
      assert (a + b)[0] == a[0];
      assert (a + b)[1..] == a[1..] + b;
      ToLowerAppend(a[1..], b);
      assert ToLower(a + b) == [LowerRune(a[0])] + ToLower(a[1..] + b);
    } else {
      assert a + b == b;
    }
  }

  /** `strings.ToLower` leaves white space as it is. */
  lemma {:induction false} ToLowerAllSpace(w: string)
    requires AllSpace(w)
    ensures ToLower(w) == w
  {
    if w != [] {
      LowerRuneKeepsSpace(w[0]);
      assert AllSpace(w[1..]) by {
        forall k | 0 <= k < |w| - 1 ensures IsSpace(w[1..][k]) {
          assert w[1..][k] == w[k + 1];
        }
      }
      ToLowerAllSpace(w[1..]);
    }
  }

  /** Lower-casing a string padded with white space lower-cases the string and
      keeps the padding. */
  lemma ToLowerAround(w1: string, k: string, w2: string)
    requires AllSpace(w1) && AllSpace(w2)
    ensures ToLower(w1 + k + w2) == w1 + ToLower(k) + w2
  {
    ToLowerAppend(w1 + k, w2);
    ToLowerAppend(w1, k);
    ToLowerAllSpace(w1);
    ToLowerAllSpace(w2);
  }

  /** Lower-casing twice is lower-casing once. */
  lemma {:induction false} ToLowerIdempotent(s: string)
    ensures ToLower(ToLower(s)) == ToLower(s)
  {
    if s != [] {
      var t := ToLower(s);
      assert t == [LowerRune(s[0])] + ToLower(s[1..]);
      assert t[1..] == ToLower(s[1..]);
      LowerRuneIdempotent(s[0]);
      ToLowerIdempotent(s[1..]);
    }
  }

  /** Leading white space is all `TrimLeft` looks at. */
  lemma {:induction false} TrimLeftSkipsSpace(w: string, x: string)
    requires AllSpace(w)
    ensures TrimLeft(w + x) == TrimLeft(x)
  {
    if w != [] {
      assert (w + x)[0] == w[0] && IsSpace(w[0]);
      assert (w + x)[1..] == w[1..] + x;
      assert TrimLeft(w + x) == TrimLeft(w[1..] + x);
      assert AllSpace(w[1..]) by {
        forall k | 0 <= k < |w| - 1 ensures IsSpace(w[1..][k]) {
          assert w[1..][k] == w[k + 1];
        }
      }
      TrimLeftSkipsSpace(w[1..], x);
    } else {
      assert w + x == x;
    }
  }

  /** Trailing white space is all `TrimRight` looks at. */
  lemma {:induction false} TrimRightSkipsSpace(x: string, w: string)
    requires AllSpace(w)
    ensures TrimRight(x + w) == TrimRight(x)
  {
    if w != [] {
      var init := w[..|w| - 1];
      assert (x + w)[|x + w| - 1] == w[|w| - 1] && IsSpace(w[|w| - 1]);
      assert (x + w)[..|x + w| - 1] == x + init;
      assert TrimRight(x + w) == TrimRight(x + init);
      assert AllSpace(init) by {
        forall k | 0 <= k < |init| ensures IsSpace(init[k]) {
          assert init[k] == w[k];
        }
      }
      TrimRightSkipsSpace(x, init);
    } else {
      assert x + w == x;
    }
  }

  /** `strings.TrimSpace` removes exactly the white space put around a string
      that neither starts nor ends with white space. */
  lemma TrimSpaceAround(w1: string, k: string, w2: string)
    requires AllSpace(w1) && AllSpace(w2)
    requires k != [] ==> !IsSpace(k[0]) && !IsSpace(k[|k| - 1])
    ensures TrimSpace(w1 + k + w2) == k
  {
    assert w1 + k + w2 == w1 + (k + w2);
    TrimLeftSkipsSpace(w1, k + w2);
    if k == [] {
      assert k + w2 == w2 + [];
      TrimLeftSkipsSpace(w2, []);
    } else {
      assert (k + w2)[0] == k[0];
      assert TrimLeft(k + w2) == k + w2;
      TrimRightSkipsSpace(k, w2);
    }
  }
}
