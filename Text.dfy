/** The pieces of Python's text handling that the file-name code relies on:
    `str(int)`, `str.zfill`, `int(str)` (as the inverse of the padding),
    `str.replace` and `posixpath.join`. Strings are sequences of characters. */
module Text {
  import opened PyErrors

  predicate IsDigit(c: char) { '0' <= c <= '9' }

  predicate AllDigits(s: string) { forall i :: 0 <= i < |s| ==> IsDigit(s[i]) }

  /** Every character is a digit or a '-' sign. */
  predicate DigitsOrMinus(s: string) { forall i :: 0 <= i < |s| ==> IsDigit(s[i]) || s[i] == '-' }

  function DigitChar(d: nat): (c: char)
    requires d < 10
    ensures IsDigit(c) && DigitValue(c) == d
  {
    (('0' as int) + d) as char
  }

  function DigitValue(c: char): nat
    requires IsDigit(c)
  {
    (c as int) - ('0' as int)
  }

  // ---------------------------------------------------------------------------
  // str(int) and int(str)

  /** Python `str(n)` for a non-negative integer: decimal digits, no leading zero
      except for 0 itself. */
  function NatToStr(n: nat): (s: string)
    ensures |s| > 0 && AllDigits(s)
    ensures s[0] == '0' <==> n == 0
    decreases n
  {
    if n < 10 then [DigitChar(n)] else NatToStr(n / 10) + [DigitChar(n % 10)]
  }

  /** Python `str(n)` for any integer: a '-' sign before the digits of a negative number. */
  function IntToStr(n: int): (s: string)
    ensures |s| > 0
    ensures s[0] == '-' <==> n < 0
    ensures n >= 0 ==> AllDigits(s)
    ensures DigitsOrMinus(s)
  {
    if n < 0 then "-" + NatToStr(-n) else NatToStr(n)
  }

  /** The value of a string of decimal digits, read most significant digit first. */
  function DigitsValue(s: string): nat
    requires AllDigits(s)
  {
    if s == [] then 0 else 10 * DigitsValue(s[..|s| - 1]) + DigitValue(s[|s| - 1])
  }

  /** Python `int(s)` restricted to an optional '-' followed by ASCII digits
      (leading zeros allowed); any other text is rejected. */
  function ParseInt(s: string): (r: Option<int>)
    ensures r.Some? <==> (|s| > 0 && AllDigits(s)) || (|s| > 1 && s[0] == '-' && AllDigits(s[1..]))
    ensures r.Some? && s[0] != '-' ==> r.value >= 0
    ensures r.Some? && s[0] == '-' ==> r.value <= 0
  {
    if |s| > 0 && s[0] == '-' then
      if |s| > 1 && AllDigits(s[1..]) then Some(0 - DigitsValue(s[1..])) else None
    else if |s| > 0 && AllDigits(s) then Some(DigitsValue(s))
    else None
  }

  lemma {:induction false} NatToStrValue(n: nat)
    ensures DigitsValue(NatToStr(n)) == n
    decreases n
  {
    if n >= 10 {
      var s := NatToStr(n);
      assert s[..|s| - 1] == NatToStr(n / 10);
      NatToStrValue(n / 10);
    }
  }

  /** `int(str(n)) == n` for every integer. */
  lemma IntToStrRoundTrip(n: int)
    ensures ParseInt(IntToStr(n)) == Some(n)
  {
    if n < 0 {
      assert IntToStr(n)[1..] == NatToStr(-n);
      NatToStrValue(-n);
    } else {
      NatToStrValue(n);
    }
  }

  // ---------------------------------------------------------------------------
  // str.zfill

  /** k copies of '0'. */
  function Zeros(k: nat): (z: string)
    ensures |z| == k && AllDigits(z)
    ensures forall i :: 0 <= i < k ==> z[i] == '0'
  {
    seq(k, _ => '0')
  }

  /** Python `s.zfill(width)`: left-pad with '0' up to `width`, keeping a
      leading sign in front of the padding; never shortens `s`. */
  function ZFill(s: string, width: nat): (r: string)
    ensures |r| == if |s| >= width then |s| else width
    ensures |s| >= width ==> r == s
    ensures |s| > 0 ==> r[0] == (if s[0] == '+' || s[0] == '-' then s[0] else if |s| < width then '0' else s[0])
  {
    if |s| >= width then s
    else if |s| > 0 && (s[0] == '+' || s[0] == '-') then [s[0]] + Zeros(width - |s|) + s[1..]
    else Zeros(width - |s|) + s
  }

  /** A signed string keeps its sign in front of the padding. */
  lemma ZFillSigned(s: string, width: nat)
    requires 0 < |s| < width && s[0] == '-'
    ensures ZFill(s, width)[0] == '-' && ZFill(s, width)[1..] == Zeros(width - |s|) + s[1..]
  {
    var r := ZFill(s, width);
    assert r == [s[0]] + (Zeros(width - |s|) + s[1..]);
  }

  /** Padding adds only '0' characters. */
  lemma ZFillKeepsDigitsOrMinus(s: string, width: nat)
    requires DigitsOrMinus(s)
    ensures DigitsOrMinus(ZFill(s, width))
  {
  }

  lemma {:induction false} ZerosValue(k: nat)
    ensures DigitsValue(Zeros(k)) == 0
  {
    if k > 0 {
      assert Zeros(k)[..k - 1] == Zeros(k - 1);
      ZerosValue(k - 1);
    }
  }

  /** Leading zeros do not change the value of a digit string. */
  lemma {:induction false} LeadingZerosValue(k: nat, s: string)
    requires AllDigits(s)
    ensures AllDigits(Zeros(k) + s)
    ensures DigitsValue(Zeros(k) + s) == DigitsValue(s)
    decreases |s|
  {
    var t := Zeros(k) + s;
    if s == [] {
      assert t == Zeros(k);
      ZerosValue(k);
    } else {
      assert t[..|t| - 1] == Zeros(k) + s[..|s| - 1];
      LeadingZerosValue(k, s[..|s| - 1]);
    }
  }

  /** Padding with `zfill` is undone by `int`: `int(str(n).zfill(w)) == n`. */
  lemma ZFillRoundTrip(n: int, width: nat)
    ensures ParseInt(ZFill(IntToStr(n), width)) == Some(n)
  {
    var s := IntToStr(n);
    if |s| >= width {
      assert ZFill(s, width) == s;
      IntToStrRoundTrip(n);
    } else if n < 0 {
      ZFillNegativeRoundTrip(n, width);
    } else {
      var r := Zeros(width - |s|) + s;
      assert ZFill(s, width) == r;
      LeadingZerosValue(width - |s|, s);
      NatToStrValue(n);
      assert r[0] == '0';
    }
  }

  /** A negative number padded by `zfill` keeps its sign first and its digits last. */
  lemma ZFillNegativeRoundTrip(n: int, width: nat)
    requires n < 0 && |IntToStr(n)| < width
    ensures ZFill(IntToStr(n), width) == "-" + Zeros(width - |IntToStr(n)|) + NatToStr(-n)
    ensures ParseInt(ZFill(IntToStr(n), width)) == Some(n)
  {
    var s, digits := IntToStr(n), NatToStr(-n);
    var k := width - |s|;
    var r := ZFill(s, width);
    ZFillSigned(s, width);
    assert s[1..] == digits;
    assert r == "-" + Zeros(k) + digits by {
      assert r == [r[0]] + r[1..];
      Reassociate("-", Zeros(k), digits);
    }
    assert AllDigits(Zeros(k) + digits) && DigitsValue(Zeros(k) + digits) == -n by {
      LeadingZerosValue(k, digits);
      NatToStrValue(-n);
    }
    SignedValue(r, Zeros(k) + digits);
  }

  /** `int` of a '-' followed by digits is minus their value. */
  lemma SignedValue(r: string, digits: string)
    requires |r| > 1 && r[0] == '-' && r[1..] == digits && AllDigits(digits)
    ensures ParseInt(r) == Some(0 - DigitsValue(digits))
  {
  }

  /** The text left after removing every leading '0'. */
  function StripLeadingZeros(s: string): (r: string)
    ensures |r| <= |s| && r == s[|s| - |r|..]
    ensures r == [] || r[0] != '0'
    ensures forall i :: 0 <= i < |s| - |r| ==> s[i] == '0'
  {
    if |s| > 0 && s[0] == '0' then StripLeadingZeros(s[1..]) else s
  }

  lemma {:induction false} StripZerosPrefix(k: nat, s: string)
    requires s == [] || s[0] != '0'
    ensures StripLeadingZeros(Zeros(k) + s) == s
  {
    if k > 0 {
      assert (Zeros(k) + s)[1..] == Zeros(k - 1) + s;
      StripZerosPrefix(k - 1, s);
    } else {
      assert Zeros(k) + s == s;
    }
  }

  /** For a positive n, stripping the zeros that `zfill` added gives back `str(n)`. */
  lemma ZFillStripRoundTrip(n: nat, width: nat)
    requires n > 0
    ensures StripLeadingZeros(ZFill(NatToStr(n), width)) == NatToStr(n)
  {
    var s := NatToStr(n);
    if |s| >= width {
      assert ZFill(s, width) == s == Zeros(0) + s;
      StripZerosPrefix(0, s);
    } else {
      assert ZFill(s, width) == Zeros(width - |s|) + s;
      StripZerosPrefix(width - |s|, s);
    }
  }

  // ---------------------------------------------------------------------------
  // str.replace

  predicate OccursAt(s: string, pat: string, i: int)
  {
    0 <= i && i + |pat| <= |s| && s[i..i + |pat|] == pat
  }

  predicate Occurs(s: string, pat: string)
  {
    exists i :: 0 <= i <= |s| - |pat| && OccursAt(s, pat, i)
  }

  /** No proper prefix of `pat` is also a suffix of it, so two occurrences of
      `pat` never overlap (".npz" is such a pattern). */
  predicate Unbordered(pat: string)
  {
    forall k :: 0 < k < |pat| ==> pat[k..] != pat[..|pat| - k]
  }

  /** Python `s.replace(pat, rep)` for a non-empty `pat`: scan left to right,
      replace each occurrence, and resume scanning after it. */
  function Replace(s: string, pat: string, rep: string): (r: string)
    requires |pat| > 0
    ensures |rep| == |pat| ==> |r| == |s|
    ensures |rep| >= |pat| ==> |r| >= |s|
    decreases |s|
  {
    if |s| < |pat| then s
    else if s[..|pat|] == pat then rep + Replace(s[|pat|..], pat, rep)
    else [s[0]] + Replace(s[1..], pat, rep)
  }

  /** Text without an occurrence of the pattern is returned unchanged. */
  lemma {:induction false} ReplaceWithoutOccurrence(s: string, pat: string, rep: string)
    requires |pat| > 0
    requires !Occurs(s, pat)
    ensures Replace(s, pat, rep) == s
    decreases |s|
  {
    if |s| >= |pat| {
      assert !OccursAt(s, pat, 0);
      if Occurs(s[1..], pat) {
        var i :| 0 <= i <= |s[1..]| - |pat| && OccursAt(s[1..], pat, i);
        assert s[i + 1..i + 1 + |pat|] == s[1..][i..i + |pat|];
        assert OccursAt(s, pat, i + 1);
      }
      ReplaceWithoutOccurrence(s[1..], pat, rep);
    }
  }

  /** Text none of whose characters belongs to the pattern passes through
      unchanged, and no occurrence can straddle the point where it begins. */
  lemma {:induction false} ReplaceKeepsTail(a: string, pat: string, rep: string, b: string)
    requires |pat| > 0
    requires forall i :: 0 <= i < |b| ==> b[i] !in pat
    ensures Replace(a + b, pat, rep) == Replace(a, pat, rep) + b
    decreases |a|
  {
    var s := a + b;
    if a == [] {
      ReplaceAvoiding(b, pat, rep);
      assert s == b && Replace(a, pat, rep) == [];
    } else if |a| >= |pat| && a[..|pat|] == pat {
      var a' := a[|pat|..];
      assert Replace(s, pat, rep) == rep + Replace(a' + b, pat, rep) by {
        assert s[..|pat|] == pat && s[|pat|..] == a' + b;
      }
      ReplaceKeepsTail(a', pat, rep, b);
      Reassociate(rep, Replace(a', pat, rep), b);
    } else if |s| < |pat| {
      assert Replace(b, pat, rep) == b;
    } else {
      var a' := a[1..];
      ReplaceStepsOver(a, pat, rep, b);
      ReplaceKeepsTail(a', pat, rep, b);
      Reassociate([a[0]], Replace(a', pat, rep), b);
    }
  }

  lemma Reassociate(p: string, x: string, y: string)
    ensures p + (x + y) == (p + x) + y
  {
  }

  /** Text none of whose characters belongs to the pattern is returned unchanged. */
  lemma ReplaceAvoiding(b: string, pat: string, rep: string)
    requires |pat| > 0
    requires forall i :: 0 <= i < |b| ==> b[i] !in pat
    ensures Replace(b, pat, rep) == b
  {
    forall i | 0 <= i <= |b| - |pat| ensures !OccursAt(b, pat, i) {
      assert b[i..i + |pat|][0] == b[i] != pat[0];
    }
    ReplaceWithoutOccurrence(b, pat, rep);
  }

  /** After appending a tail that avoids the pattern's characters, the text
      still starts with the head and avoids them from there on. */
  lemma AppendAvoiding(head: string, tail: string, pat: string)
    requires forall i :: 0 <= i < |tail| ==> tail[i] !in pat
    ensures (head + tail)[..|head|] == head
    ensures forall i :: |head| <= i < |head + tail| ==> (head + tail)[i] !in pat
  {
    forall i | |head| <= i < |head + tail| ensures (head + tail)[i] !in pat {
      assert (head + tail)[i] == tail[i - |head|];
    }
  }

  /** One step of the scan when the text does not start with the pattern and
      its first character is kept, both with and without the tail `b`. */
  lemma ReplaceStepsOver(a: string, pat: string, rep: string, b: string)
    requires |pat| > 0 && a != [] && |a + b| >= |pat|
    requires !(|a| >= |pat| && a[..|pat|] == pat)
    requires forall i :: 0 <= i < |b| ==> b[i] !in pat
    ensures Replace(a + b, pat, rep) == [a[0]] + Replace(a[1..] + b, pat, rep)
    ensures Replace(a, pat, rep) == [a[0]] + Replace(a[1..], pat, rep)
  {
    var s := a + b;
    assert s[..|pat|] != pat by {
      if |a| >= |pat| {
        assert s[..|pat|] == a[..|pat|];
      } else {
        assert s[|a|] == b[0] && b[0] !in pat;
      }
    }
    assert s[1..] == a[1..] + b;
    if |a| < |pat| {
      assert a == [a[0]] + a[1..];
    }
  }

  /** An occurrence of an unbordered pattern is always replaced, and the text
      on each side of it is rewritten independently. */
  lemma {:induction false} ReplaceAround(a: string, pat: string, rep: string, b: string)
    requires |pat| > 0 && Unbordered(pat)
    ensures Replace(a + pat + b, pat, rep) == Replace(a, pat, rep) + rep + Replace(b, pat, rep)
    decreases |a|
  {
    var s := a + pat + b;
    if a == [] {
      assert Replace(s, pat, rep) == rep + Replace(b, pat, rep) by {
        assert s == pat + b;
        assert s[..|pat|] == pat && s[|pat|..] == b;
      }
      assert Replace(a, pat, rep) + rep == rep;
    } else if |a| >= |pat| && a[..|pat|] == pat {
      var a' := a[|pat|..];
      assert Replace(s, pat, rep) == rep + Replace(a' + pat + b, pat, rep) by {
        assert s[..|pat|] == pat && s[|pat|..] == a' + pat + b;
      }
      assert Replace(a, pat, rep) == rep + Replace(a', pat, rep);
      ReplaceAround(a', pat, rep, b);
      Regroup(rep, Replace(a', pat, rep), rep, Replace(b, pat, rep));
    } else {
      var a' := a[1..];
      assert Replace(s, pat, rep) == [a[0]] + Replace(a' + pat + b, pat, rep) by {
        assert s[..|pat|] != pat by {
          if |a| >= |pat| {
            assert s[..|pat|] == a[..|pat|];
          } else {
            NoMatchBeforeOccurrence(a, pat, b);
          }
        }
        assert s[1..] == a' + pat + b;
      }
      assert Replace(a, pat, rep) == [a[0]] + Replace(a', pat, rep) by {
        if |a| < |pat| {
          assert a == [a[0]] + a';
        }
      }
      ReplaceAround(a', pat, rep, b);
      Regroup([a[0]], Replace(a', pat, rep), rep, Replace(b, pat, rep));
    }
  }

  lemma Regroup(p: string, x: string, q: string, y: string)
    ensures p + (x + q + y) == (p + x) + q + y
  {
  }

  /** Just before an occurrence of an unbordered pattern, closer than its
      length, there is no match: it would overlap that occurrence. */
  lemma NoMatchBeforeOccurrence(a: string, pat: string, b: string)
    requires Unbordered(pat) && 0 < |a| < |pat|
    ensures (a + pat + b)[..|pat|] != pat
  {
    var s, k := a + pat + b, |a|;
    assert s[k..|pat|] == pat[..|pat| - k];
    assert pat[k..] != pat[..|pat| - k];
  }

  /** The result starts with the text's first character or with the replacement's. */
  lemma ReplaceFirstCharacter(s: string, pat: string, rep: string)
    requires |pat| > 0 && |s| > 0 && |rep| > 0
    ensures |Replace(s, pat, rep)| > 0
    ensures Replace(s, pat, rep)[0] in {s[0], rep[0]}
  {
  }

  /** When the text ends with an unbordered pattern, the result ends with the replacement. */
  lemma ReplaceAtEnd(a: string, pat: string, rep: string)
    requires |pat| > 0 && Unbordered(pat)
    ensures Replace(a + pat, pat, rep) == Replace(a, pat, rep) + rep
  {
    ReplaceAround(a, pat, rep, []);
    assert a + pat + [] == a + pat;
  }

  // ---------------------------------------------------------------------------
  // posixpath.join

  predicate StartsWithSlash(s: string) { |s| > 0 && s[0] == '/' }

  /** Python `posixpath.join(a, b)`: an absolute `b` replaces `a`; otherwise a
      '/' is inserted unless `a` is empty or already ends with one. */
  function Join(a: string, b: string): (r: string)
    ensures |r| >= |b| && r[|r| - |b|..] == b
    ensures !StartsWithSlash(b) && a != [] && a[|a| - 1] != '/' ==> r == a + "/" + b
  {
    if StartsWithSlash(b) then b
    else if a == [] || a[|a| - 1] == '/' then a + b
    else a + "/" + b
  }

  /** Joining onto the same directory keeps different relative (or different
      absolute) names apart. */
  lemma JoinInjective(a: string, b1: string, b2: string)
    requires StartsWithSlash(b1) == StartsWithSlash(b2)
    requires Join(a, b1) == Join(a, b2)
    ensures b1 == b2
  {
    var r1, r2 := Join(a, b1), Join(a, b2);
    if !StartsWithSlash(b1) {
      var p := if a == [] || a[|a| - 1] == '/' then a else a + "/";
      assert r1 == p + b1 && r2 == p + b2;
      assert b1 == r1[|p|..] && b2 == r2[|p|..];
    }
  }
}
