/** Option, the model of Ruby's `nil`-or-value results. */
module Wrappers {
  datatype Option<+T> = None | Some(value: T)
}

/** String helpers the dump engine and its tests rely on: ASCII character
    classes, `Array#join`, literal `String#gsub`, and `Integer#to_s`. */
module Text {
  import opened Wrappers

  predicate IsUpper(c: char) { 'A' <= c <= 'Z' }
  predicate IsLower(c: char) { 'a' <= c <= 'z' }
  predicate IsDigit(c: char) { '0' <= c <= '9' }

  /** ASCII `downcase` of one character. */
  function ToLower(c: char): (d: char)
    ensures !IsUpper(d)
    ensures !IsUpper(c) ==> d == c
    ensures IsUpper(c) ==> IsLower(d) && d as int == c as int + 32
  {
    if IsUpper(c) then (c as int + 32) as char else c
  }

  // ---------------------------------------------------------------------
  // Array#join

  /** `xs.join(sep)`: the elements with `sep` between neighbours. */
  function Join(xs: seq<string>, sep: string): string
    decreases |xs|
  {
    if |xs| == 0 then "" else if |xs| == 1 then xs[0] else xs[0] + sep + Join(xs[1..], sep)
  }

  /** Joining two non-empty lists is joining each and gluing the halves with
      one separator: this is why records split across batches come out as
      if they had been joined in one go. */
  lemma {:induction false} JoinAppend(xs: seq<string>, ys: seq<string>, sep: string)
    requires |xs| > 0 && |ys| > 0
    ensures Join(xs + ys, sep) == Join(xs, sep) + sep + Join(ys, sep)
  {
    if |xs| == 1 {
      assert (xs + ys)[1..] == ys;
    } else {
      assert (xs + ys)[1..] == xs[1..] + ys;
      JoinAppend(xs[1..], ys, sep);
    }
  }

  // ---------------------------------------------------------------------
  // Literal String#gsub

  /** The pattern `pat` starts at index `i` of `s`. */
  predicate MatchAt(s: string, pat: string, i: int)
  {
    0 <= i && i + |pat| <= |s| && s[i..i + |pat|] == pat
  }

  /** `s.include?(pat)`. */
  ghost predicate Occurs(s: string, pat: string)
  {
    exists i :: MatchAt(s, pat, i)
  }

  /** `s.gsub(pat, rep)` for a non-empty literal pattern and a replacement
      without backslashes: scan left to right, replace each match and resume
      right after it (matches never overlap).  `rep` is inserted verbatim;
      Ruby would expand `\0`, `\&`, `\1` or `\\` in it. */
  function ReplaceAll(s: string, pat: string, rep: string): string
    requires |pat| > 0
    decreases |s|
  {
    if |pat| <= |s| && s[..|pat|] == pat then rep + ReplaceAll(s[|pat|..], pat, rep)
    else if |s| == 0 then ""
    else [s[0]] + ReplaceAll(s[1..], pat, rep)
  }

  /** A text that does not contain the pattern is returned unchanged. */
  lemma {:induction false} ReplaceAllAbsent(s: string, pat: string, rep: string)
    requires |pat| > 0 && !Occurs(s, pat)
    ensures ReplaceAll(s, pat, rep) == s
  {
    assert !MatchAt(s, pat, 0);
    if |s| > 0 {
      forall i | MatchAt(s[1..], pat, i) ensures MatchAt(s, pat, i + 1) {
        assert s[1..][i..i + |pat|] == s[i + 1..i + 1 + |pat|];
      }
      ReplaceAllAbsent(s[1..], pat, rep);
    }
  }

  /** A text in front of which the pattern stands has the replacement in front. */
  lemma ReplaceAllLeading(s: string, pat: string, rep: string)
    requires |pat| > 0
    ensures ReplaceAll(pat + s, pat, rep) == rep + ReplaceAll(s, pat, rep)
  {
    assert (pat + s)[..|pat|] == pat;
    assert (pat + s)[|pat|..] == s;
  }

  /** A text without the pattern's first character does not contain it. */
  lemma AbsentWithoutFirstChar(s: string, pat: string)
    requires |pat| > 0 && pat[0] !in s
    ensures !Occurs(s, pat)
  {
    forall i ensures !MatchAt(s, pat, i) {
      if 0 <= i < |s| {
        assert s[i] != pat[0];
      }
    }
  }

  /** A text shorter than the pattern does not contain it. */
  lemma AbsentWhenShorter(s: string, pat: string)
    requires |s| < |pat|
    ensures !Occurs(s, pat)
  {
  }

  /** No occurrence of `pat` in `x + y` starts in `x` and ends in `y`. */
  ghost predicate NoStraddle(x: string, y: string, pat: string)
  {
    forall i :: 0 <= i < |x| < i + |pat| ==> !MatchAt(x + y, pat, i)
  }

  /** A seam is safe when the character on either side of it is not part
      of the pattern. */
  lemma SafeSeam(x: string, y: string, pat: string)
    requires (|x| > 0 && x[|x| - 1] !in pat) || (|y| > 0 && y[0] !in pat)
    ensures NoStraddle(x, y, pat)
  {
    forall i | 0 <= i < |x| < i + |pat| ensures !MatchAt(x + y, pat, i) {
      if i + |pat| <= |x| + |y| {
        var w := (x + y)[i..i + |pat|];
        if |x| > 0 && x[|x| - 1] !in pat {
          assert w[|x| - 1 - i] == x[|x| - 1];
        } else {
          assert w[|x| - i] == y[0];
        }
      }
    }
  }

  /** Replacement distributes over a concatenation with a safe seam. */
  lemma {:induction false} ReplaceAllConcat(x: string, y: string, pat: string, rep: string)
    requires |pat| > 0 && NoStraddle(x, y, pat)
    ensures ReplaceAll(x + y, pat, rep) == ReplaceAll(x, pat, rep) + ReplaceAll(y, pat, rep)
    decreases |x|
  {
    var s := x + y;
    if |x| == 0 {
      assert s == y;
    } else if |pat| <= |s| && s[..|pat|] == pat {
      if |x| < |pat| {
        assert MatchAt(s, pat, 0);
        assert false;
      }
      assert x[..|pat|] == pat;
      var x' := x[|pat|..];
      assert s[|pat|..] == x' + y;
      forall i | 0 <= i < |x'| < i + |pat| ensures !MatchAt(x' + y, pat, i) {
        if MatchAt(x' + y, pat, i) {
          assert (x' + y)[i..i + |pat|] == s[i + |pat|..i + |pat| + |pat|];
          assert MatchAt(s, pat, i + |pat|);
        }
      }
      ReplaceAllConcat(x', y, pat, rep);
    } else {
      assert !(|pat| <= |x| && x[..|pat|] == pat);
      var x' := x[1..];
      assert s[1..] == x' + y;
      forall i | 0 <= i < |x'| < i + |pat| ensures !MatchAt(x' + y, pat, i) {
        if MatchAt(x' + y, pat, i) {
          assert (x' + y)[i..i + |pat|] == s[i + 1..i + 1 + |pat|];
          assert MatchAt(s, pat, i + 1);
        }
      }
      ReplaceAllConcat(x', y, pat, rep);
    }
  }

  /** Two pattern-free texts joined at a safe seam are pattern-free. */
  lemma AbsentConcat(x: string, y: string, pat: string)
    requires !Occurs(x, pat) && !Occurs(y, pat) && NoStraddle(x, y, pat)
    ensures !Occurs(x + y, pat)
  {
    forall i | MatchAt(x + y, pat, i) && i + |pat| <= |x| ensures MatchAt(x, pat, i) {
      assert (x + y)[i..i + |pat|] == x[i..i + |pat|];
    }
    forall i | MatchAt(x + y, pat, i) && i >= |x| ensures MatchAt(y, pat, i - |x|) {
      assert (x + y)[i..i + |pat|] == y[i - |x|..i - |x| + |pat|];
    }
  }

  // ---------------------------------------------------------------------
  // Integer#to_s and its inverse

  function DigitChar(d: nat): (c: char)
    requires d < 10
    ensures IsDigit(c)
  {
    ('0' as int + d) as char
  }

  predicate AllDigits(s: string)
  {
    forall k :: 0 <= k < |s| ==> IsDigit(s[k])
  }

  /** The decimal digits of `n`, most significant first, no leading zero. */
  function NatToString(n: nat): (s: string)
    ensures |s| > 0 && AllDigits(s)
    ensures |s| > 1 ==> s[0] != '0'
    decreases n
  {
    if n < 10 then [DigitChar(n)] else NatToString(n / 10) + [DigitChar(n % 10)]
  }

  /** `i.to_s`: a minus sign in front of the digits of a negative number. */
  function IntToString(i: int): string
  {
    if i < 0 then "-" + NatToString(-i) else NatToString(i)
  }

  /** The value of a string of decimal digits. */
  function ParseNat(s: string): nat
    requires AllDigits(s)
    decreases |s|
  {
    if |s| == 0 then 0 else ParseNat(s[..|s| - 1]) * 10 + (s[|s| - 1] as int - '0' as int)
  }

  /** Reads back an integer literal as Ruby prints it. */
  function ParseInt(s: string): Option<int>
  {
    if |s| > 1 && s[0] == '-' && AllDigits(s[1..]) then Some(0 - ParseNat(s[1..]))
    else if |s| > 0 && AllDigits(s) then Some(ParseNat(s))
    else None
  }

  lemma {:induction false} ParseNatToString(n: nat)
    ensures ParseNat(NatToString(n)) == n
    decreases n
  {
    var s := NatToString(n);
    if n >= 10 {
      ParseNatToString(n / 10);
      assert s[..|s| - 1] == NatToString(n / 10);
    }
  }

  /** Printing an integer loses nothing: the text reads back as the number. */
  lemma ParseIntToString(i: int)
    ensures ParseInt(IntToString(i)) == Some(i)
  {
    if i < 0 {
      var d := NatToString(-i);
      assert ("-" + d)[1..] == d;
      ParseNatToString(-i);
    } else {
      ParseNatToString(i);
      var d := NatToString(i);
      assert d[0] != '-';
    }
  }
}
