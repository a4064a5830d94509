/** The test suite's `underscore` helper: ActiveSupport's camel-case to
    snake-case conversion, a chain of four rewrites and a downcase.  Each
    regular-expression rewrite is written out as the left-to-right scan the
    regex engine performs, over ASCII. */
module Inflector {
  import opened Text

  /** Step 1, `gsub(/::/, '/')`: a namespace separator becomes a path separator. */
  function SlashNamespaces(s: string): string
  {
    ReplaceAll(s, "::", "/")
  }

  /** The length of the run of upper-case letters that `s` starts with. */
  function UpperRun(s: string): (n: nat)
    ensures n <= |s|
    decreases |s|
  {
    if |s| > 0 && IsUpper(s[0]) then 1 + UpperRun(s[1..]) else 0
  }

  /** The run is upper case and ends at the first other character. */
  lemma {:induction false} UpperRunIsRun(s: string)
    ensures forall k :: 0 <= k < UpperRun(s) ==> IsUpper(s[k])
    ensures UpperRun(s) < |s| ==> !IsUpper(s[UpperRun(s)])
    decreases |s|
  {
    if |s| > 0 && IsUpper(s[0]) {
      var t := s[1..];
      UpperRunIsRun(t);
      forall k | 0 < k < UpperRun(s) ensures IsUpper(s[k]) {
        assert s[k] == t[k - 1];
      }
      if UpperRun(s) < |s| {
        assert s[UpperRun(s)] == t[UpperRun(t)];
      }
    }
  }

  /** An upper-case run of length `j`, at least two, stands at the start
      of `s` and a lower-case letter follows it. */
  predicate AcronymAt(s: string, j: nat)
  {
    2 <= j < |s| && IsLower(s[j])
  }

  /** The text of one match of step 2: the run but its last capital, an
      underscore, the last capital and the lower-case letter. */
  function AcronymSplit(s: string, j: nat): string
    requires AcronymAt(s, j)
  {
    s[..j - 1] + "_" + s[j - 1..j + 1]
  }

  /** Step 2, `gsub(/([A-Z]+)([A-Z][a-z])/, '\1_\2')`.  A match starts where
      an upper-case run of length at least two is followed by a lower-case
      letter; the greedy `[A-Z]+` gives back exactly one letter, so the
      underscore goes in front of the run's last letter, and the scan resumes
      after the lower-case letter. */
  function SplitAcronyms(s: string): string
    decreases |s|
  {
    if |s| == 0 then ""
    else if AcronymAt(s, UpperRun(s)) then
      AcronymSplit(s, UpperRun(s)) + SplitAcronyms(s[UpperRun(s) + 1..])
    else
      [s[0]] + SplitAcronyms(s[1..])
  }

  /** `[a-z\d]` followed by `[A-Z]`: where step 3 puts an underscore. */
  predicate CamelBoundary(a: char, b: char)
  {
    (IsLower(a) || IsDigit(a)) && IsUpper(b)
  }

  /** Step 3, `gsub(/([a-z\d])([A-Z])/, '\1_\2')`: an underscore between a
      lower-case letter or digit and the upper-case letter after it. */
  function SplitCamel(s: string): string
    decreases |s|
  {
    if |s| >= 2 && CamelBoundary(s[0], s[1]) then
      [s[0], '_', s[1]] + SplitCamel(s[2..])
    else if |s| == 0 then ""
    else [s[0]] + SplitCamel(s[1..])
  }

  /** Step 4, `tr("-", "_")`. */
  function DashesToUnderscores(s: string): string
  {
    seq(|s|, i requires 0 <= i < |s| => if s[i] == '-' then '_' else s[i])
  }

  /** Step 5, `downcase` (ASCII). */
  function Downcase(s: string): string
  {
    seq(|s|, i requires 0 <= i < |s| => ToLower(s[i]))
  }

  /** `underscore(camel_cased_word)`. */
  function Underscore(word: string): string
  {
    Downcase(DashesToUnderscores(SplitCamel(SplitAcronyms(SlashNamespaces(word)))))
  }

  predicate NoUpper(s: string)
  {
    forall k :: 0 <= k < |s| ==> !IsUpper(s[k])
  }

  /** The characters of `s` other than underscores, in order. */
  function DropUnderscores(s: string): string
    decreases |s|
  {
    if |s| == 0 then "" else (if s[0] == '_' then "" else [s[0]]) + DropUnderscores(s[1..])
  }

  lemma {:induction false} DropUnderscoresAppend(a: string, b: string)
    ensures DropUnderscores(a + b) == DropUnderscores(a) + DropUnderscores(b)
    decreases |a|
  {
    if |a| > 0 {
      assert (a + b)[1..] == a[1..] + b;
      DropUnderscoresAppend(a[1..], b);
    } else {
      assert a + b == b;
    }
  }

  /** Inserting no underscore or one underscore after a character, in front
      of a tail whose non-underscore characters agree, keeps the
      non-underscore characters. */
  lemma DropUnderscoresStep(c: char, ins: string, r: string, rest: string)
    requires ins == "" || ins == "_"
    requires DropUnderscores(r) == DropUnderscores(rest)
    ensures DropUnderscores([c] + ins + r) == DropUnderscores([c] + rest)
  {
    DropUnderscoresAppend([c] + ins, r);
    DropUnderscoresAppend([c], ins);
    DropUnderscoresAppend([c], rest);
    assert DropUnderscores(ins) == "";
  }

  /** The result is snake case: no upper-case letter and no dash is left. */
  lemma UnderscoreIsSnakeCase(word: string)
    ensures NoUpper(Underscore(word))
    ensures '-' !in Underscore(word)
  {
    var t := DashesToUnderscores(SplitCamel(SplitAcronyms(SlashNamespaces(word))));
    assert '-' !in t;
    forall k | 0 <= k < |t| ensures Underscore(word)[k] != '-' {
      assert t[k] != '-';
    }
  }

  lemma {:induction false} SplitAcronymsNoUpper(s: string)
    requires NoUpper(s)
    ensures SplitAcronyms(s) == s
    decreases |s|
  {
    if |s| > 0 {
      assert UpperRun(s) == 0;
      SplitAcronymsNoUpper(s[1..]);
    }
  }

  lemma {:induction false} SplitCamelNoUpper(s: string)
    requires NoUpper(s)
    ensures SplitCamel(s) == s
    decreases |s|
  {
    if |s| > 0 {
      SplitCamelNoUpper(s[1..]);
    }
  }

  /** A word that is already lower case, with no `::` and no `-`, is
      returned as it is. */
  lemma UnderscoreKeepsSnakeCase(word: string)
    requires NoUpper(word) && '-' !in word && !Occurs(word, "::")
    ensures Underscore(word) == word
  {
    ReplaceAllAbsent(word, "::", "/");
    SplitAcronymsNoUpper(word);
    SplitCamelNoUpper(word);
    assert DashesToUnderscores(word) == word;
  }

  /** Replacing each `/` by `::` undoes step 1 on a word that had no `/`:
      the namespace rewrite loses nothing. */
  lemma {:induction false} SlashNamespacesReversible(s: string)
    requires '/' !in s
    ensures ReplaceAll(SlashNamespaces(s), "/", "::") == s
    decreases |s|
  {
    if |s| >= 2 && s[..2] == "::" {
      SlashNamespacesReversible(s[2..]);
      ReplaceAllLeading(SlashNamespaces(s[2..]), "/", "::");
      assert s == "::" + s[2..];
    } else if |s| > 0 {
      SlashNamespacesReversible(s[1..]);
      var t := [s[0]] + SlashNamespaces(s[1..]);
      assert t[..1] == [s[0]] && t[1..] == SlashNamespaces(s[1..]);
      assert s == [s[0]] + s[1..];
    }
  }

  // ---------------------------------------------------------------------
  // Where steps 2 and 3 put underscores

  /** `s` starts with two capitals and a lower-case letter: step 2 puts an
      underscore between the two capitals. */
  predicate AcronymBoundary(s: string)
  {
    |s| >= 3 && IsUpper(s[0]) && IsUpper(s[1]) && IsLower(s[2])
  }

  /** The reference for step 2, read off the input position by position: an
      underscore after every capital that a capital and a lower-case letter
      follow, and nothing else added. */
  function AcronymSeparated(s: string): string
    decreases |s|
  {
    if |s| == 0 then ""
    else [s[0]] + (if AcronymBoundary(s) then "_" else "") + AcronymSeparated(s[1..])
  }

  /** The reference for step 3: an underscore inside every `[a-z\d][A-Z]`
      pair of the input, and nothing else added. */
  function CamelSeparated(s: string): string
    decreases |s|
  {
    if |s| == 0 then ""
    else [s[0]] + (if |s| >= 2 && CamelBoundary(s[0], s[1]) then "_" else "") + CamelSeparated(s[1..])
  }

  /** Inside an upper-case run that a lower-case letter ends, the reference
      adds exactly one underscore, in front of the run's last capital:
      `tail` is that underscore, the last capital, the lower-case letter and
      the reference for the rest. */
  lemma {:induction false} RunSeparated(s: string, j: nat, k: nat, tail: string)
    requires 2 <= j < |s| && IsLower(s[j]) && k <= j - 2
    requires forall i :: 0 <= i < j ==> IsUpper(s[i])
    requires tail == "_" + s[j - 1..j + 1] + AcronymSeparated(s[j + 1..])
    ensures AcronymSeparated(s[k..]) == s[k..j - 1] + tail
    decreases j - k
  {
    if k == j - 2 {
      RunEnd(s[j - 2..], tail, AcronymSeparated(s[j + 1..]));
      assert s[j - 2..][3..] == s[j + 1..];
      assert s[j - 2..][1..3] == s[j - 1..j + 1];
    } else {
      RunSeparated(s, j, k + 1, tail);
      var x := s[k + 1..j - 1];
      KeptHead(s[k..], s[k + 1..]);
      assert s[k..j - 1] == [s[k]] + x;
    }
  }

  /** A character where no boundary starts is kept as it is. */
  lemma KeptHead(u: string, rest: string)
    requires |u| >= 3 && IsUpper(u[2]) && rest == u[1..]
    ensures AcronymSeparated(u) == [u[0]] + AcronymSeparated(rest)
  {
  }

  /** The end of an upper-case run: two capitals and a lower-case letter. */
  lemma RunEnd(u: string, tail: string, r: string)
    requires AcronymBoundary(u) && r == AcronymSeparated(u[3..])
    requires tail == "_" + u[1..3] + r
    ensures AcronymSeparated(u) == u[..1] + tail
  {
    var v, w := u[1..], u[2..];
    assert v[1..] == w && w[1..] == u[3..];
    assert !AcronymBoundary(v) && !AcronymBoundary(w);
    assert AcronymSeparated(w) == [u[2]] + r;
    assert AcronymSeparated(v) == [u[1]] + AcronymSeparated(w);
    assert u[1..3] == [u[1], u[2]];
  }

  /** Two capitals and then a lower-case letter make an upper-case run of
      length two followed by that letter. */
  lemma UpperRunOfBoundary(s: string)
    requires AcronymBoundary(s)
    ensures UpperRun(s) == 2
  {
    assert s[1..][0] == s[1] && s[1..][1..] == s[2..];
    assert UpperRun(s[2..]) == 0;
  }

  /** Step 2 is its reference: the scan puts an underscore at exactly the
      boundaries of the input. */
  lemma {:induction false} SplitAcronymsSeparated(s: string)
    ensures SplitAcronyms(s) == AcronymSeparated(s)
    decreases |s|
  {
    if |s| > 0 {
      var j := UpperRun(s);
      if AcronymAt(s, j) {
        SplitAcronymsSeparated(s[j + 1..]);
        AcronymRunCase(s, j, AcronymSeparated(s[j + 1..]));
      } else {
        SplitAcronymsSeparated(s[1..]);
        AcronymPlainCase(s, AcronymSeparated(s[1..]));
      }
    }
  }

  /** A match of step 2 agrees with the reference when the rest does. */
  lemma AcronymRunCase(s: string, j: nat, r: string)
    requires j == UpperRun(s) && AcronymAt(s, j)
    requires SplitAcronyms(s[j + 1..]) == r && AcronymSeparated(s[j + 1..]) == r
    ensures SplitAcronyms(s) == AcronymSeparated(s)
  {
    var run, pair := s[..j - 1], s[j - 1..j + 1];
    AcronymRunUnfold(s);
    UpperRunIsRun(s);
    RunSeparated(s, j, 0, "_" + pair + r);
    assert s[0..] == s;
    AppendAssoc(run, "_", pair, r);
  }

  /** One match of step 2, written out. */
  lemma AcronymRunUnfold(s: string)
    requires |s| > 0 && AcronymAt(s, UpperRun(s))
    ensures SplitAcronyms(s)
         == s[..UpperRun(s) - 1] + "_" + s[UpperRun(s) - 1..UpperRun(s) + 1] + SplitAcronyms(s[UpperRun(s) + 1..])
  {
    assert SplitAcronyms(s) == AcronymSplit(s, UpperRun(s)) + SplitAcronyms(s[UpperRun(s) + 1..]);
  }

  lemma AppendAssoc(a: string, b: string, c: string, d: string)
    ensures a + b + c + d == a + (b + c + d)
  {
  }

  /** A character step 2 keeps agrees with the reference when the rest does. */
  lemma AcronymPlainCase(s: string, r: string)
    requires |s| > 0 && !AcronymAt(s, UpperRun(s))
    requires SplitAcronyms(s[1..]) == r && AcronymSeparated(s[1..]) == r
    ensures SplitAcronyms(s) == AcronymSeparated(s)
  {
    AcronymPlainUnfold(s, r);
    if AcronymBoundary(s) {
      UpperRunOfBoundary(s);
      assert false;
    }
    KeptUnfold(s, r);
  }

  /** One character kept by step 2, written out. */
  lemma AcronymPlainUnfold(s: string, r: string)
    requires |s| > 0 && !AcronymAt(s, UpperRun(s))
    requires SplitAcronyms(s[1..]) == r
    ensures SplitAcronyms(s) == [s[0]] + r
  {
  }

  /** A character where no boundary starts, in the reference. */
  lemma KeptUnfold(s: string, r: string)
    requires |s| > 0 && !AcronymBoundary(s) && AcronymSeparated(s[1..]) == r
    ensures AcronymSeparated(s) == [s[0]] + r
  {
  }

  /** Step 3 is its reference: the scan puts an underscore at exactly the
      boundaries of the input. */
  lemma {:induction false} SplitCamelSeparated(s: string)
    ensures SplitCamel(s) == CamelSeparated(s)
    decreases |s|
  {
    if |s| >= 2 && CamelBoundary(s[0], s[1]) {
      SplitCamelSeparated(s[2..]);
      CamelPairCase(s, CamelSeparated(s[2..]));
    } else if |s| > 0 {
      SplitCamelSeparated(s[1..]);
      CamelPlainCase(s, CamelSeparated(s[1..]));
    }
  }

  /** A match of step 3 agrees with the reference when the rest does. */
  lemma CamelPairCase(s: string, r: string)
    requires |s| >= 2 && CamelBoundary(s[0], s[1])
    requires SplitCamel(s[2..]) == r && CamelSeparated(s[2..]) == r
    ensures SplitCamel(s) == CamelSeparated(s)
  {
    var u := s[1..];
    assert u[0] == s[1] && u[1..] == s[2..];
    assert !(|u| >= 2 && CamelBoundary(u[0], u[1]));
    assert CamelSeparated(u) == [s[1]] + r;
    assert CamelSeparated(s) == [s[0]] + "_" + CamelSeparated(u);
    assert SplitCamel(s) == [s[0], '_', s[1]] + r;
  }

  /** A character step 3 keeps agrees with the reference when the rest does. */
  lemma CamelPlainCase(s: string, r: string)
    requires |s| > 0 && !(|s| >= 2 && CamelBoundary(s[0], s[1]))
    requires SplitCamel(s[1..]) == r && CamelSeparated(s[1..]) == r
    ensures SplitCamel(s) == CamelSeparated(s)
  {
    assert SplitCamel(s) == [s[0]] + r;
    assert CamelSeparated(s) == [s[0]] + r;
  }

  lemma {:induction false} AcronymSeparatedOnlyInserts(s: string)
    ensures DropUnderscores(AcronymSeparated(s)) == DropUnderscores(s)
    decreases |s|
  {
    if |s| > 0 {
      AcronymSeparatedOnlyInserts(s[1..]);
      DropUnderscoresStep(s[0], if AcronymBoundary(s) then "_" else "", AcronymSeparated(s[1..]), s[1..]);
      assert s == [s[0]] + s[1..];
    }
  }

  lemma {:induction false} CamelSeparatedOnlyInserts(s: string)
    ensures DropUnderscores(CamelSeparated(s)) == DropUnderscores(s)
    decreases |s|
  {
    if |s| > 0 {
      CamelSeparatedOnlyInserts(s[1..]);
      var ins := if |s| >= 2 && CamelBoundary(s[0], s[1]) then "_" else "";
      DropUnderscoresStep(s[0], ins, CamelSeparated(s[1..]), s[1..]);
      assert s == [s[0]] + s[1..];
    }
  }

  /** Step 2 only inserts underscores: every other character stays, in order. */
  lemma SplitAcronymsOnlyInserts(s: string)
    ensures DropUnderscores(SplitAcronyms(s)) == DropUnderscores(s)
  {
    SplitAcronymsSeparated(s);
    AcronymSeparatedOnlyInserts(s);
  }

  /** Step 3 only inserts underscores: every other character stays, in order. */
  lemma SplitCamelOnlyInserts(s: string)
    ensures DropUnderscores(SplitCamel(s)) == DropUnderscores(s)
  {
    SplitCamelSeparated(s);
    CamelSeparatedOnlyInserts(s);
  }

  /** No two capitals followed by a lower-case letter. */
  predicate NoAcronymBoundary(t: string)
  {
    forall k :: 0 <= k < |t| - 2 ==> !(IsUpper(t[k]) && IsUpper(t[k + 1]) && IsLower(t[k + 2]))
  }

  /** No `[a-z\d]` followed by `[A-Z]`. */
  predicate NoCamelBoundary(t: string)
  {
    forall k :: 0 <= k < |t| - 1 ==> !CamelBoundary(t[k], t[k + 1])
  }

  /** The first two characters of the reference for step 2. */
  lemma AcronymSeparatedStart(s: string)
    requires |s| > 0
    ensures |AcronymSeparated(s)| > 0 && AcronymSeparated(s)[0] == s[0]
    ensures AcronymBoundary(s) ==> |AcronymSeparated(s)| > 1 && AcronymSeparated(s)[1] == '_'
    ensures |s| > 1 && !AcronymBoundary(s) ==> |AcronymSeparated(s)| > 1 && AcronymSeparated(s)[1] == s[1]
  {
    if |s| > 1 && !AcronymBoundary(s) {
      var u := s[1..];
      assert AcronymSeparated(u)[0] == s[1];
    }
  }

  /** The reference for step 2 leaves no boundary behind. */
  lemma {:induction false} AcronymSeparatedLeavesNoBoundary(s: string)
    ensures NoAcronymBoundary(AcronymSeparated(s))
    decreases |s|
  {
    if |s| > 0 {
      var ins := if AcronymBoundary(s) then "_" else "";
      var head, r := [s[0]] + ins, AcronymSeparated(s[1..]);
      var t := AcronymSeparated(s);
      AcronymSeparatedLeavesNoBoundary(s[1..]);
      assert t == head + r;
      forall k | 0 <= k < |t| - 2
        ensures !(IsUpper(t[k]) && IsUpper(t[k + 1]) && IsLower(t[k + 2]))
      {
        if k >= |head| {
          assert t[k] == r[k - |head|] && t[k + 1] == r[k + 1 - |head|] && t[k + 2] == r[k + 2 - |head|];
        } else if ins == "_" {
          assert t[k] == '_' || t[k + 1] == '_';
        } else {
          AcronymSeparatedStart(s[1..]);
          assert t[1] == s[1];
          if |s| > 2 && !AcronymBoundary(s[1..]) {
            assert t[2] == s[2];
            assert s[1..][1] == s[2];
          } else if |s| > 2 {
            assert t[2] == '_';
          }
        }
      }
    }
  }

  /** The reference for step 3 leaves no boundary behind. */
  lemma {:induction false} CamelSeparatedLeavesNoBoundary(s: string)
    ensures NoCamelBoundary(CamelSeparated(s))
    decreases |s|
  {
    if |s| > 0 {
      var ins := if |s| >= 2 && CamelBoundary(s[0], s[1]) then "_" else "";
      var head, r := [s[0]] + ins, CamelSeparated(s[1..]);
      var t := CamelSeparated(s);
      CamelSeparatedLeavesNoBoundary(s[1..]);
      assert t == head + r;
      forall k | 0 <= k < |t| - 1 ensures !CamelBoundary(t[k], t[k + 1]) {
        if k >= |head| {
          assert t[k] == r[k - |head|] && t[k + 1] == r[k + 1 - |head|];
        } else if ins == "_" {
          assert t[k] == '_' || t[k + 1] == '_';
        } else {
          assert r[0] == s[1];
        }
      }
    }
  }

  /** After step 2 no upper-case run of two or more is directly followed by
      a lower-case letter. */
  lemma SplitAcronymsLeavesNoBoundary(s: string)
    ensures NoAcronymBoundary(SplitAcronyms(s))
  {
    SplitAcronymsSeparated(s);
    AcronymSeparatedLeavesNoBoundary(s);
  }

  /** After step 3 no lower-case letter or digit is directly followed by a
      capital. */
  lemma SplitCamelLeavesNoBoundary(s: string)
    ensures NoCamelBoundary(SplitCamel(s))
  {
    SplitCamelSeparated(s);
    CamelSeparatedLeavesNoBoundary(s);
  }

  /** The model name of the tests' fixture turns into its variable name. */
  lemma UnderscoreSample()
    ensures Underscore("Sample") == "sample"
  {
    SampleRewritesNothing();
    NoDashesUnchanged("Sample");
    SampleDowncased();
  }

  /** A word without dashes is left alone by step 4. */
  lemma NoDashesUnchanged(s: string)
    requires '-' !in s
    ensures DashesToUnderscores(s) == s
  {
  }

  /** None of the four rewrites applies to `Sample`. */
  lemma SampleRewritesNothing()
    ensures SplitCamel(SplitAcronyms(SlashNamespaces("Sample"))) == "Sample"
  {
    AbsentWithoutFirstChar("Sample", "::");
    ReplaceAllAbsent("Sample", "::", "/");
    CapitalizedUnsplit("Sample", "ample");
  }

  /** A capital followed by no capital gives neither step 2 nor step 3
      anything to split. */
  lemma CapitalizedUnsplit(s: string, t: string)
    requires |s| > 0 && t == s[1..] && NoUpper(t)
    ensures SplitAcronyms(s) == s && SplitCamel(s) == s
  {
    SplitAcronymsNoUpper(t);
    SplitCamelNoUpper(t);
    assert UpperRun(s) <= 1 by {
      if |t| > 0 {
        assert !IsUpper(t[0]);
      }
    }
    assert SplitAcronyms(s) == [s[0]] + SplitAcronyms(t);
    if |s| >= 2 {
      assert !IsUpper(s[1]) by { assert s[1] == t[0]; }
    }
    assert SplitCamel(s) == [s[0]] + SplitCamel(t);
  }

  lemma SampleDowncased()
    ensures Downcase("Sample") == "sample"
  {
  }
}
