/**
 * Go strings as the bot sees them: sequences of bytes. `len`, slicing,
 * `strings.Contains` and `strings.ReplaceAll` all work on bytes, and the
 * model keeps that (a slice may cut a multi-byte UTF-8 character).
 */
module Text {

  newtype Byte = x: int | 0 <= x < 256

  type GoString = seq<Byte>

  /** True when `t` occurs in `s` starting at byte `i`. */
  predicate OccursAt(s: GoString, t: GoString, i: nat)
  {
    i + |t| <= |s| && s[i..i + |t|] == t
  }

  /** `strings.Contains(s, t)`: the empty string occurs everywhere. */
  function Contains(s: GoString, t: GoString): (r: bool)
    ensures r <==> exists i: nat :: OccursAt(s, t, i)
    decreases |s|
  {
    if |t| > |s| then
      false
    else if s[..|t|] == t then
      assert OccursAt(s, t, 0);
      true
    else
      var r := Contains(s[1..], t);
      assert r ==> exists i: nat :: OccursAt(s, t, i) by {
        if r {
          var j: nat :| OccursAt(s[1..], t, j);
          assert s[1..][j..j + |t|] == s[j + 1..j + 1 + |t|];
          assert OccursAt(s, t, j + 1);
        }
      }
      assert (exists i: nat :: OccursAt(s, t, i)) ==> r by {
        if exists i: nat :: OccursAt(s, t, i) {
          var j: nat :| OccursAt(s, t, j);
          assert j != 0;
          assert s[1..][j - 1..j - 1 + |t|] == s[j..j + |t|];
          assert OccursAt(s[1..], t, j - 1);
        }
      }
      r
  }

  /** Lower-casing of one byte: only the ASCII letters A-Z change. */
  function LowerByte(b: Byte): Byte
  {
    if 65 <= b <= 90 then b + 32 else b
  }

  /**
   * ASCII approximation of `strings.ToLower`: no capital letter is left,
   * and a byte changes only when it is a capital, into its small letter.
   */
  function Lower(s: GoString): (r: GoString)
    ensures |r| == |s|
    ensures forall i :: 0 <= i < |r| ==> !(65 <= r[i] <= 90)
    ensures forall i :: 0 <= i < |s| && r[i] != s[i] ==> 65 <= s[i] <= 90 && r[i] == s[i] + 32
  {
    seq(|s|, i requires 0 <= i < |s| => LowerByte(s[i]))
  }

  /** Lowering is idempotent, so lowering the text first changes no mention check. */
  lemma LowerIdempotent(s: GoString)
    ensures Lower(Lower(s)) == Lower(s)
  {
  }

  /** An occurrence survives lowering: `Lower` works byte by byte. */
  lemma LowerKeepsOccurrence(s: GoString, t: GoString, i: nat)
    requires OccursAt(s, t, i)
    ensures OccursAt(Lower(s), Lower(t), i)
  {
    assert Lower(s)[i..i + |t|] == Lower(t) by {
      forall k | 0 <= k < |t|
        ensures Lower(s)[i..i + |t|][k] == Lower(t)[k]
      {
        assert s[i + k] == s[i..i + |t|][k];
      }
    }
  }

  /**
   * `strings.ReplaceAll(s, pat, "")`: deletes the non-overlapping
   * occurrences of `pat` found scanning from the left. An empty `pat`
   * matches between bytes and is replaced by nothing, so `s` is kept.
   */
  function RemoveAll(s: GoString, pat: GoString): (r: GoString)
    ensures |r| <= |s|
    ensures |pat| == 0 || !Contains(s, pat) ==> r == s
    ensures |pat| > 0 && Contains(s, pat) ==> |r| < |s|
  {
    if |pat| == 0 then
      s
    else
      var r := Strip(s, pat);
      assert |r| <= |s| && (Contains(s, pat) ==> |r| < |s|) && (!Contains(s, pat) ==> r == s) by {
        StripLength(s, pat);
        if Contains(s, pat) {
          StripShrinks(s, pat);
        } else {
          StripNone(s, pat);
        }
      }
      r
  }

  /**
   * The scan behind `RemoveAll` for a non-empty `pat`: an occurrence at
   * the front is dropped whole, otherwise the first byte is kept.
   */
  function Strip(s: GoString, pat: GoString): GoString
    requires |pat| > 0
    decreases |s|
  {
    if |s| < |pat| then s
    else if s[..|pat|] == pat then Strip(s[|pat|..], pat)
    else [s[0]] + Strip(s[1..], pat)
  }

  /** The scan never lengthens what it reads. */
  lemma {:induction false} StripLength(s: GoString, pat: GoString)
    requires |pat| > 0
    ensures |Strip(s, pat)| <= |s|
    decreases |s|
  {
    if |s| >= |pat| {
      if s[..|pat|] == pat {
        StripLength(s[|pat|..], pat);
      } else {
        StripLength(s[1..], pat);
      }
    }
  }

  /** With no occurrence the scan keeps every byte. */
  lemma {:induction false} StripNone(s: GoString, pat: GoString)
    requires |pat| > 0 && !Contains(s, pat)
    ensures Strip(s, pat) == s
    decreases |s|
  {
    if |s| >= |pat| {
      StripNone(s[1..], pat);
      assert [s[0]] + s[1..] == s;
    }
  }

  /** An occurrence makes the scan strictly shorter. */
  lemma {:induction false} StripShrinks(s: GoString, pat: GoString)
    requires |pat| > 0 && Contains(s, pat)
    ensures |Strip(s, pat)| < |s|
    decreases |s|
  {
    if s[..|pat|] == pat {
      StripLength(s[|pat|..], pat);
    } else {
      StripShrinks(s[1..], pat);
    }
  }

  /**
   * The step `strings.ReplaceAll(s, pat, "")` takes at the leftmost
   * occurrence of a non-empty `pat`: the bytes before it are kept, the
   * occurrence is dropped, and the scan resumes right after it.
   */
  lemma RemoveLeftmost(s: GoString, pat: GoString, i: nat)
    requires |pat| > 0 && OccursAt(s, pat, i)
    requires forall j: nat :: j < i ==> !OccursAt(s, pat, j)
    ensures RemoveAll(s, pat) == s[..i] + RemoveAll(s[i + |pat|..], pat)
  {
    NoneBeforeFromForall(s, pat, i);
    StripLeftmost(s, pat, i);
  }

  /** No occurrence of `pat` starts before byte `i` of `s`. */
  predicate NoneBefore(s: GoString, pat: GoString, i: nat)
    decreases i
  {
    i == 0 || (0 < |s| && !OccursAt(s, pat, 0) && NoneBefore(s[1..], pat, i - 1))
  }

  /** The quantified form of "no earlier occurrence" gives the recursive one. */
  lemma {:induction false} NoneBeforeFromForall(s: GoString, pat: GoString, i: nat)
    requires i <= |s| && forall j: nat :: j < i ==> !OccursAt(s, pat, j)
    ensures NoneBefore(s, pat, i)
    decreases i
  {
    if i > 0 {
      forall j: nat | j < i - 1
        ensures !OccursAt(s[1..], pat, j)
      {
        OccursInSuffix(s, pat, 1, j + 1);
      }
      NoneBeforeFromForall(s[1..], pat, i - 1);
    }
  }

  /** `RemoveLeftmost` for the scan, by induction on the bytes before the occurrence. */
  lemma {:induction false} StripLeftmost(s: GoString, pat: GoString, i: nat)
    requires |pat| > 0 && OccursAt(s, pat, i) && NoneBefore(s, pat, i)
    ensures Strip(s, pat) == s[..i] + Strip(s[i + |pat|..], pat)
    decreases i
  {
    if i == 0 {
      assert s[..0] + Strip(s[|pat|..], pat) == Strip(s[|pat|..], pat);
    } else {
      var t := s[1..];
      StripKeep(s, pat);
      FirstAndPrefix(s, i);
      OccursInSuffix(s, pat, 1, i);
      StripLeftmost(t, pat, i - 1);
      assert t[i - 1 + |pat|..] == s[i + |pat|..];
      assert Strip(s, pat) == [s[0]] + Strip(t, pat);
      assert s[..i] == [s[0]] + t[..i - 1];
      KeepFirst(s[0], Strip(s, pat), Strip(t, pat), t[..i - 1], s[..i],
                Strip(t[i - 1 + |pat|..], pat), Strip(s[i + |pat|..], pat));
    }
  }

  /** No occurrence at the front: the first byte is kept. */
  lemma StripKeep(s: GoString, pat: GoString)
    requires |pat| > 0 && |pat| <= |s| && !OccursAt(s, pat, 0)
    ensures Strip(s, pat) == [s[0]] + Strip(s[1..], pat)
  {
    assert s[..|pat|] == s[0..|pat|];
  }

  /** A non-empty prefix is its first byte and a prefix of the rest. */
  lemma FirstAndPrefix(s: GoString, i: nat)
    requires 0 < i <= |s|
    ensures s[..i] == [s[0]] + s[1..][..i - 1]
  {
  }

  /** Cutting off a prefix moves every occurrence by its length. */
  lemma OccursInSuffix(s: GoString, pat: GoString, m: nat, k: nat)
    requires m <= k <= |s|
    ensures OccursAt(s[m..], pat, k - m) <==> OccursAt(s, pat, k)
  {
    if k + |pat| <= |s| {
      assert s[m..][k - m..k - m + |pat|] == s[k..k + |pat|];
    }
  }

  /**
   * Gluing a kept first byte back onto the scan of the rest. The
   * equalities are taken over plain values so that the solver does not
   * unfold `Strip` while regrouping the concatenation.
   */
  lemma KeepFirst(b: Byte, whole: GoString, rest: GoString, front: GoString, front': GoString,
                  tail: GoString, tail': GoString)
    requires whole == [b] + rest && rest == front + tail
    requires front' == [b] + front && tail == tail'
    ensures whole == front' + tail'
  {
    assert [b] + (front + tail) == ([b] + front) + tail;
  }

  predicate IsDigit(b: Byte)
  {
    48 <= b <= 57
  }

  predicate AllDigits(s: GoString)
  {
    forall i :: 0 <= i < |s| ==> IsDigit(s[i])
  }

  function DigitByte(d: int): (b: Byte)
    requires 0 <= d < 10
    ensures IsDigit(b)
  {
    (48 + d) as Byte
  }

  /** Go's `%d` for a non-negative integer: decimal digits, no leading zeros. */
  function Decimal(n: nat): (r: GoString)
    ensures |r| > 0 && AllDigits(r)
    ensures |r| > 1 ==> r[0] != 48
    decreases n
  {
    if n < 10 then [DigitByte(n)] else Decimal(n / 10) + [DigitByte(n % 10)]
  }

  /** The number a string of decimal digits denotes. */
  function DigitsValue(ds: GoString): nat
    requires AllDigits(ds)
    decreases |ds|
  {
    if ds == [] then 0 else DigitsValue(ds[..|ds| - 1]) * 10 + (ds[|ds| - 1] - 48) as int
  }

  /** Reading back what `%d` printed gives the number again. */
  lemma {:induction false} DecimalValue(n: nat)
    ensures DigitsValue(Decimal(n)) == n
    decreases n
  {
    if n >= 10 {
      DecimalValue(n / 10);
      var d := Decimal(n);
      assert d[..|d| - 1] == Decimal(n / 10);
    }
  }

  /** The length of the run of digits at the start of `s`. */
  function DigitRun(s: GoString): (k: nat)
    ensures k <= |s| && AllDigits(s[..k])
    ensures k < |s| ==> !IsDigit(s[k])
    decreases |s|
  {
    if |s| == 0 || !IsDigit(s[0]) then
      0
    else
      var k := 1 + DigitRun(s[1..]);
      assert s[..k] == [s[0]] + s[1..][..k - 1];
      k
  }

  /** A number printed by `%d` is read back whole when a non-digit follows it. */
  lemma {:induction false} DigitRunOfDecimal(d: GoString, rest: GoString)
    requires AllDigits(d)
    requires rest == [] || !IsDigit(rest[0])
    ensures DigitRun(d + rest) == |d|
    decreases |d|
  {
    if |d| > 0 {
      DigitRunOfDecimal(d[1..], rest);
      assert (d + rest)[1..] == d[1..] + rest;
    } else {
      assert d + rest == rest;
    }
  }
}
