/** String operations the core relies on: substring search, Python `str.replace`, ASCII case and decimals. */
module Text {

  predicate StartsWith(s: string, w: string)
  {
    |w| <= |s| && s[..|w|] == w
  }

  /** Python `w in s` for strings: `w` occurs somewhere in `s`. */
  predicate Occurs(w: string, s: string)
  {
    StartsWith(s, w) || (s != [] && Occurs(w, s[1..]))
  }

  /**
   * Python `s.replace(pat, c)`: scans left to right and replaces every
   * non-overlapping occurrence of `pat` by the single character `c`.
   */
  function ReplaceAll(s: string, pat: string, c: char): string
    requires pat != []
  {
    if s == [] then []
    else if StartsWith(s, pat) then [c] + ReplaceAll(s[|pat|..], pat, c)
    else [s[0]] + ReplaceAll(s[1..], pat, c)
  }

  /** Peeling one character off both a string and a candidate prefix. */
  lemma StartsWithCons(s: string, w: string)
    requires s != [] && w != []
    ensures StartsWith(s, w) <==> s[0] == w[0] && StartsWith(s[1..], w[1..])
  {
    if |w| <= |s| {
      assert s[..|w|] == [s[0]] + s[1..][..|w| - 1];
      assert w == [w[0]] + w[1..];
    }
  }

  /** A string lacking the first character of `pat` has no occurrence to replace. */
  lemma {:induction false} ReplaceAllUnchanged(s: string, pat: string, c: char)
    requires pat != [] && pat[0] !in s
    ensures ReplaceAll(s, pat, c) == s
  {
    if s != [] {
      StartsWithCons(s, pat);
      ReplaceAllUnchanged(s[1..], pat, c);
      assert [s[0]] + s[1..] == s;
    }
  }

  /**
   * Replacing by a character that `w` does not contain cannot create a prefix
   * `w`: if the replaced text starts with `w`, so did the original.
   */
  lemma {:induction false} ReplacedPrefix(s: string, pat: string, c: char, w: string)
    requires pat != [] && c !in w
    ensures StartsWith(ReplaceAll(s, pat, c), w) ==> StartsWith(s, w)
  {
    var r := ReplaceAll(s, pat, c);
    if w != [] && s != [] {
      StartsWithCons(r, w);
      StartsWithCons(s, w);
      if StartsWith(s, pat) {
        assert r[0] == c != w[0];
      } else {
        assert r[1..] == ReplaceAll(s[1..], pat, c);
        ReplacedPrefix(s[1..], pat, c, w[1..]);
      }
    }
  }

  lemma {:induction false} OccursInSuffix(w: string, s: string, k: nat)
    requires k <= |s|
    ensures Occurs(w, s[k..]) ==> Occurs(w, s)
  {
    if k > 0 {
      assert s[1..][k - 1..] == s[k..];
      OccursInSuffix(w, s[1..], k - 1);
    }
  }

  /** After the replacement no occurrence of `pat` is left, provided `c` is not in `pat`. */
  lemma {:induction false} ReplaceAllRemoves(s: string, pat: string, c: char)
    requires pat != [] && c !in pat
    ensures !Occurs(pat, ReplaceAll(s, pat, c))
  {
    ReplaceAllKeepsOut(s, pat, c, pat);
  }

  /**
   * A replacement by a character outside `w` creates no occurrence of `w`:
   * every occurrence of `w` in the result is an occurrence of `w` in `s`
   * that does not overlap a replaced `pat`. In particular `pat` itself does
   * not survive.
   */
  lemma {:induction false} ReplaceAllKeepsOut(s: string, pat: string, c: char, w: string)
    requires pat != [] && w != [] && c !in w
    requires w == pat || !Occurs(w, s)
    ensures !Occurs(w, ReplaceAll(s, pat, c))
  {
    var r := ReplaceAll(s, pat, c);
    if s == [] {
      assert !StartsWith(r, w);
    } else if StartsWith(s, pat) {
      OccursInSuffix(w, s, |pat|);
      ReplaceAllKeepsOut(s[|pat|..], pat, c, w);
      assert r[1..] == ReplaceAll(s[|pat|..], pat, c);
      StartsWithCons(r, w);
      assert r[0] == c != w[0];
    } else {
      var r' := ReplaceAll(s[1..], pat, c);
      ReplaceAllKeepsOut(s[1..], pat, c, w);
      assert r[1..] == r';
      StartsWithCons(r, w);
      StartsWithCons(s, w);
      ReplacedPrefix(s[1..], pat, c, w[1..]);
    }
  }

  /** ASCII lowercasing: 'A'..'Z' become 'a'..'z', everything else is kept. */
  function AsciiLower(s: string): (r: string)
    ensures |r| == |s|
    ensures forall i :: 0 <= i < |s| ==> ('A' <= s[i] <= 'Z' ==> r[i] as int == s[i] as int + 32)
    ensures forall i :: 0 <= i < |s| ==> (!('A' <= s[i] <= 'Z') ==> r[i] == s[i])
  {
    seq(|s|, i requires 0 <= i < |s| => if 'A' <= s[i] <= 'Z' then (s[i] as int + 32) as char else s[i])
  }

  /** The decimal digits of `n`, as Python `str(n)` and JavaScript `String(n)` write them. */
  function NatToString(n: nat): (r: string)
    ensures r != [] && (|r| == 1 <==> n < 10)
    ensures forall i :: 0 <= i < |r| ==> '0' <= r[i] <= '9'
  {
    if n < 10 then [Digit(n)] else NatToString(n / 10) + [Digit(n % 10)]
  }

  function Digit(d: nat): (c: char)
    requires d < 10
    ensures '0' <= c <= '9' && c as int - '0' as int == d
  {
    ('0' as int + d) as char
  }

  /** Distinct numbers have distinct decimal strings. */
  lemma {:induction false} NatToStringInjective(a: nat, b: nat)
    requires NatToString(a) == NatToString(b)
    ensures a == b
  {
    var sa, sb := NatToString(a), NatToString(b);
    if a >= 10 {
      assert sa[|sa| - 1] == Digit(a % 10) && sb[|sb| - 1] == Digit(b % 10);
      assert sa[..|sa| - 1] == NatToString(a / 10);
      assert sb[..|sb| - 1] == NatToString(b / 10);
      NatToStringInjective(a / 10, b / 10);
    } else {
      assert sa[0] == Digit(a) && sb[0] == Digit(b);
    }
  }
}
