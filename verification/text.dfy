/** Character-level string operations: repetition and Python's `str.lstrip`,
    `str.rstrip` and `str.strip` for a set made of one character. */
module Text {

  /** `n` copies of `c`. */
  function Repeat(c: char, n: nat): (r: string)
    ensures |r| == n
    ensures forall i :: 0 <= i < n ==> r[i] == c
  {
    seq(n, _ => c)
  }

  /** True when `s` neither starts nor ends with `c`. */
  predicate Trimmed(s: string, c: char)
  {
    s == [] || (s[0] != c && s[|s| - 1] != c)
  }

  /** `s.lstrip(c)`: drops every leading `c`. */
  function LStrip(s: string, c: char): (r: string)
    ensures |r| <= |s| && r == s[|s| - |r|..]
    ensures r == [] || r[0] != c
    ensures forall i :: 0 <= i < |s| - |r| ==> s[i] == c
  {
    if |s| > 0 && s[0] == c then LStrip(s[1..], c) else s
  }

  /** `s.rstrip(c)`: drops every trailing `c`. */
  function RStrip(s: string, c: char): (r: string)
    ensures |r| <= |s| && r == s[..|r|]
    ensures r == [] || r[|r| - 1] != c
    ensures forall i :: |r| <= i < |s| ==> s[i] == c
  {
    if |s| > 0 && s[|s| - 1] == c then RStrip(s[..|s| - 1], c) else s
  }

  /** True when `r` is what stripping `c` from `s` leaves: a contiguous part
      of `s` that neither starts nor ends with `c`, every character of `s`
      before and after it being `c`. */
  predicate StrippedOf(r: string, s: string, c: char)
  {
    && Trimmed(r, c)
    && exists i, j :: 0 <= i <= j <= |s| && r == s[i..j]
                   && (forall k :: 0 <= k < i ==> s[k] == c)
                   && (forall k :: j <= k < |s| ==> s[k] == c)
  }

  /** `s.strip(c)`: the contiguous middle of `s` left after removing every
      leading and every trailing `c`. */
  function Strip(s: string, c: char): (r: string)
    ensures StrippedOf(r, s, c)
  {
    var left := LStrip(s, c);
    var r := RStrip(left, c);
    assert r == s[|s| - |left|..|s| - |left| + |r|];
    r
  }

  /** Stripping `c` from `c`-padding around a text that does not begin with `c`
      gives back that text. */
  lemma {:induction false} LStripPadded(c: char, a: nat, t: string)
    requires t == [] || t[0] != c
    ensures LStrip(Repeat(c, a) + t, c) == t
  {
    if a > 0 {
      assert (Repeat(c, a) + t)[1..] == Repeat(c, a - 1) + t;
      LStripPadded(c, a - 1, t);
    } else {
      assert Repeat(c, a) + t == t;
    }
  }

  /** Stripping trailing `c`-padding from a text that does not end with `c`
      gives back that text. */
  lemma {:induction false} RStripPadded(c: char, t: string, b: nat)
    requires t == [] || t[|t| - 1] != c
    ensures RStrip(t + Repeat(c, b), c) == t
  {
    if b > 0 {
      assert (t + Repeat(c, b))[..|t| + b - 1] == t + Repeat(c, b - 1);
      RStripPadded(c, t, b - 1);
    } else {
      assert t + Repeat(c, b) == t;
    }
  }

  /** `Strip` inverts padding on both sides: whatever number of `c` surround a
      text that is trimmed of `c`, stripping yields exactly that text. */
  lemma StripPadded(c: char, a: nat, t: string, b: nat)
    requires Trimmed(t, c)
    ensures Strip(Repeat(c, a) + t + Repeat(c, b), c) == t
  {
    var s := Repeat(c, a) + t + Repeat(c, b);
    if t == [] {
      assert s == Repeat(c, a + b) + [];
      LStripPadded(c, a + b, []);
    } else {
      assert s == Repeat(c, a) + (t + Repeat(c, b));
      LStripPadded(c, a, t + Repeat(c, b));
      RStripPadded(c, t, b);
    }
  }

  /** Every string is its stripped middle padded with `c` on both sides. */
  lemma StripSplits(s: string, c: char) returns (a: nat, b: nat)
    ensures s == Repeat(c, a) + Strip(s, c) + Repeat(c, b)
  {
    var i, j :| 0 <= i <= j <= |s| && Strip(s, c) == s[i..j]
             && (forall k :: 0 <= k < i ==> s[k] == c)
             && (forall k :: j <= k < |s| ==> s[k] == c);
    a, b := i, |s| - j;
    assert s == s[..i] + s[i..j] + s[j..];
    assert s[..i] == Repeat(c, a);
    assert s[j..] == Repeat(c, b);
  }

  /** Stripping twice is the same as stripping once. */
  lemma StripIdempotent(s: string, c: char)
    ensures Strip(Strip(s, c), c) == Strip(s, c)
  {
    var t := Strip(s, c);
    StripPadded(c, 0, t, 0);
    assert Repeat(c, 0) + t + Repeat(c, 0) == t;
  }
}
