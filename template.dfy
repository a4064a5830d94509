/** The update-or-create code that follows every dumped array: a fixed text
    with `[var_name]` and `[model_name]` holes, filled in by two literal
    `gsub` calls. */
module UpdateTemplate {
  import opened Text

  const ModelPlaceholder: string := "[model_name]"
  const VarPlaceholder: string := "[var_name]"

  /** The lines, each followed by a newline character. */
  function Unlines(lines: seq<string>): string
    decreases |lines|
  {
    if |lines| == 0 then "" else lines[0] + "\n" + Unlines(lines[1..])
  }

  /** The template's lines.  The text opens with a newline (the line break
      right after the opening quotes), so its first line is empty; the
      placeholders are set apart in the lines that hold them. */
  const TemplateLines: seq<string> := [
    "",
    "[var_name]" + ".each do |f|",
    "  item = " + "[model_name]" + ".find_by_key(f[:key])",
    "  unless item.nil?",
    "    item.update_attributes(f)",
    "    item.save",
    "  else",
    "    " + "[model_name]" + ".create!(f)",
    "  end",
    "end"
  ]

  /** The value of `@update_code` before substitution. */
  const UpdateCode: string := Unlines(TemplateLines)

  /** `code.gsub("[model_name]", model).gsub("[var_name]", varName)`. */
  function Substitute(code: string, model: string, varName: string): string
  {
    ReplaceAll(ReplaceAll(code, ModelPlaceholder, model), VarPlaceholder, varName)
  }

  /** The template with its holes filled: the independent description of
      what substitution must produce. */
  function FilledLines(model: string, varName: string): seq<string>
  {
    [
      "",
      varName + ".each do |f|",
      "  item = " + model + ".find_by_key(f[:key])",
      "  unless item.nil?",
      "    item.update_attributes(f)",
      "    item.save",
      "  else",
      "    " + model + ".create!(f)",
      "  end",
      "end"
    ]
  }

  /** Each line rewritten on its own. */
  function ReplaceEach(lines: seq<string>, pat: string, rep: string): seq<string>
    requires |pat| > 0
  {
    seq(|lines|, i requires 0 <= i < |lines| => ReplaceAll(lines[i], pat, rep))
  }

  /** A pattern without a newline never spans two lines, so replacing in the
      whole text is replacing in every line. */
  lemma {:induction false} ReplaceAllUnlines(lines: seq<string>, pat: string, rep: string)
    requires |pat| > 0 && '\n' !in pat
    ensures ReplaceAll(Unlines(lines), pat, rep) == Unlines(ReplaceEach(lines, pat, rep))
    decreases |lines|
  {
    if |lines| > 0 {
      var rest := Unlines(lines[1..]);
      assert Unlines(lines) == lines[0] + ("\n" + rest);
      SafeSeam(lines[0], "\n" + rest, pat);
      ReplaceAllConcat(lines[0], "\n" + rest, pat, rep);
      SafeSeam("\n", rest, pat);
      ReplaceAllConcat("\n", rest, pat, rep);
      AbsentWithoutFirstChar("\n", pat);
      ReplaceAllAbsent("\n", pat, rep);
      ReplaceAllUnlines(lines[1..], pat, rep);
      assert ReplaceEach(lines, pat, rep)[1..] == ReplaceEach(lines[1..], pat, rep);
    }
  }

  /** A pattern without a newline occurs in the text only if it occurs in a line. */
  lemma {:induction false} AbsentUnlines(lines: seq<string>, pat: string)
    requires |pat| > 0 && '\n' !in pat
    requires forall i :: 0 <= i < |lines| ==> !Occurs(lines[i], pat)
    ensures !Occurs(Unlines(lines), pat)
    decreases |lines|
  {
    if |lines| == 0 {
      AbsentWhenShorter("", pat);
    } else {
      var rest := Unlines(lines[1..]);
      AbsentUnlines(lines[1..], pat);
      AbsentWithoutFirstChar("\n", pat);
      SafeSeam("\n", rest, pat);
      AbsentConcat("\n", rest, pat);
      SafeSeam(lines[0], "\n" + rest, pat);
      AbsentConcat(lines[0], "\n" + rest, pat);
      assert Unlines(lines) == lines[0] + ("\n" + rest);
    }
  }

  predicate IsPlaceholder(pat: string)
  {
    pat == ModelPlaceholder || pat == VarPlaceholder
  }

  /** A line without `[` is left alone by both substitutions. */
  lemma PlainLine(line: string, pat: string, rep: string)
    requires IsPlaceholder(pat) && '[' !in line
    ensures !Occurs(line, pat) && ReplaceAll(line, pat, rep) == line
  {
    AbsentWithoutFirstChar(line, pat);
    ReplaceAllAbsent(line, pat, rep);
  }

  /** A text that opens with the pattern and has no other occurrence of it
      gets the replacement in front and nothing else. */
  lemma HoleAtStart(suffix: string, pat: string, rep: string)
    requires |pat| > 0 && !Occurs(suffix, pat)
    ensures ReplaceAll(pat + suffix, pat, rep) == rep + suffix
  {
    ReplaceAllLeading(suffix, pat, rep);
    ReplaceAllAbsent(suffix, pat, rep);
  }

  /** A pattern-free prefix at a safe seam is kept as it is. */
  lemma CleanPrefix(prefix: string, rest: string, pat: string, rep: string)
    requires |pat| > 0 && !Occurs(prefix, pat) && NoStraddle(prefix, rest, pat)
    ensures ReplaceAll(prefix + rest, pat, rep) == prefix + ReplaceAll(rest, pat, rep)
  {
    ReplaceAllConcat(prefix, rest, pat, rep);
    ReplaceAllAbsent(prefix, pat, rep);
  }

  /** A line with one hole, between texts that hold no pattern, where the
      character before the hole is not in the pattern, gets the replacement
      in the hole and nothing else. */
  lemma HoleLine(prefix: string, suffix: string, pat: string, rep: string)
    requires |pat| > 0 && !Occurs(prefix, pat) && !Occurs(suffix, pat)
    requires |prefix| > 0 && prefix[|prefix| - 1] !in pat
    ensures ReplaceAll(prefix + pat + suffix, pat, rep) == prefix + rep + suffix
  {
    assert prefix + pat + suffix == prefix + (pat + suffix);
    SafeSeam(prefix, pat + suffix, pat);
    CleanPrefix(prefix, pat + suffix, pat, rep);
    HoleAtStart(suffix, pat, rep);
    assert prefix + (rep + suffix) == prefix + rep + suffix;
  }

  /** Three texts without the pattern, at safe seams, make a text without it. */
  lemma AbsentConcat3(a: string, b: string, c: string, pat: string)
    requires !Occurs(a, pat) && !Occurs(b, pat) && !Occurs(c, pat)
    requires |a| == 0 || a[|a| - 1] !in pat
    requires |c| == 0 || c[0] !in pat
    ensures !Occurs(a + b + c, pat)
  {
    if |c| > 0 {
      SafeSeam(b, c, pat);
    }
    AbsentConcat(b, c, pat);
    if |a| > 0 {
      SafeSeam(a, b + c, pat);
      AbsentConcat(a, b + c, pat);
      assert a + b + c == a + (b + c);
    } else {
      assert a + b + c == b + c;
    }
  }

  /** The tail `.find_by_key(f[:key])` holds a `[` but no placeholder. */
  lemma FindByKeyTail(pat: string)
    requires IsPlaceholder(pat)
    ensures !Occurs(".find_by_key(f[:key])", pat)
  {
    assert ".find_by_key(f[:key])" == ".find_by_key(f" + "[:key])" + "";
    AbsentWithoutFirstChar(".find_by_key(f", pat);
    AbsentWhenShorter("[:key])", pat);
    AbsentWhenShorter("", pat);
    AbsentConcat3(".find_by_key(f", "[:key])", "", pat);
  }

  /** The line that looks the record up, with a name free of `[` in the
      model's place, holds no placeholder. */
  lemma LookupLine(model: string, pat: string)
    requires IsPlaceholder(pat) && '[' !in model
    ensures !Occurs("  item = " + model + ".find_by_key(f[:key])", pat)
  {
    FindByKeyTail(pat);
    AbsentWithoutFirstChar(model, pat);
    AbsentWithoutFirstChar("  item = ", pat);
    AbsentConcat3("  item = ", model, ".find_by_key(f[:key])", pat);
  }

  /** The lookup line gets the model name in its hole. */
  lemma FillLookupLine(model: string)
    ensures ReplaceAll("  item = " + ModelPlaceholder + ".find_by_key(f[:key])", ModelPlaceholder, model)
         == "  item = " + model + ".find_by_key(f[:key])"
  {
    AbsentWithoutFirstChar("  item = ", ModelPlaceholder);
    FindByKeyTail(ModelPlaceholder);
    HoleLine("  item = ", ".find_by_key(f[:key])", ModelPlaceholder, model);
  }

  /** The create line gets the model name in its hole. */
  lemma FillCreateLine(model: string)
    ensures ReplaceAll("    " + ModelPlaceholder + ".create!(f)", ModelPlaceholder, model)
         == "    " + model + ".create!(f)"
  {
    AbsentWithoutFirstChar("    ", ModelPlaceholder);
    AbsentWithoutFirstChar(".create!(f)", ModelPlaceholder);
    HoleLine("    ", ".create!(f)", ModelPlaceholder, model);
  }

  /** The loop line holds the variable placeholder, not the model one. */
  lemma LoopLineHasNoModel()
    ensures !Occurs(VarPlaceholder + ".each do |f|", ModelPlaceholder)
  {
    AbsentWhenShorter("", ModelPlaceholder);
    AbsentWhenShorter(VarPlaceholder, ModelPlaceholder);
    AbsentWithoutFirstChar(".each do |f|", ModelPlaceholder);
    AbsentConcat3("", VarPlaceholder, ".each do |f|", ModelPlaceholder);
    assert "" + VarPlaceholder + ".each do |f|" == VarPlaceholder + ".each do |f|";
  }

  /** The lines without a hole have no `[` and are the same in the
      template and in the filled template. */
  lemma FixedLine(model: string, varName: string, i: int)
    requires 0 <= i < 10 && i != 1 && i != 2 && i != 7
    ensures '[' !in TemplateLines[i] && FilledLines(model, varName)[i] == TemplateLines[i]
  {
  }

  /** Line `i` of the template after the first substitution. */
  lemma FillModelLine(model: string, i: int)
    requires 0 <= i < |TemplateLines|
    ensures ReplaceAll(TemplateLines[i], ModelPlaceholder, model) == FilledLines(model, VarPlaceholder)[i]
  {
    if i == 1 {
      LoopLineHasNoModel();
      ReplaceAllAbsent(TemplateLines[i], ModelPlaceholder, model);
    } else if i == 2 {
      FillLookupLine(model);
    } else if i == 7 {
      FillCreateLine(model);
    } else {
      FixedLine(model, VarPlaceholder, i);
      PlainLine(TemplateLines[i], ModelPlaceholder, model);
    }
  }

  /** The first substitution fills the two model holes. */
  lemma FillModel(model: string)
    ensures ReplaceEach(TemplateLines, ModelPlaceholder, model) == FilledLines(model, VarPlaceholder)
  {
    var r := ReplaceEach(TemplateLines, ModelPlaceholder, model);
    var f := FilledLines(model, VarPlaceholder);
    forall i | 0 <= i < |r| ensures r[i] == f[i] {
      FillModelLine(model, i);
    }
  }

  /** The loop line gets the variable name in its hole. */
  lemma FillLoopLine(varName: string)
    ensures ReplaceAll(VarPlaceholder + ".each do |f|", VarPlaceholder, varName) == varName + ".each do |f|"
  {
    AbsentWithoutFirstChar(".each do |f|", VarPlaceholder);
    HoleAtStart(".each do |f|", VarPlaceholder, varName);
  }

  /** Line `i` of the half-filled template after the second substitution. */
  lemma FillVarLine(model: string, varName: string, i: int)
    requires '[' !in model && 0 <= i < 10
    ensures ReplaceAll(FilledLines(model, VarPlaceholder)[i], VarPlaceholder, varName) == FilledLines(model, varName)[i]
  {
    var line := FilledLines(model, VarPlaceholder)[i];
    if i == 1 {
      FillLoopLine(varName);
    } else if i == 2 {
      LookupLine(model, VarPlaceholder);
      ReplaceAllAbsent(line, VarPlaceholder, varName);
    } else if i == 7 {
      PlainLine(line, VarPlaceholder, varName);
    } else {
      FixedLine(model, VarPlaceholder, i);
      FixedLine(model, varName, i);
      PlainLine(TemplateLines[i], VarPlaceholder, varName);
    }
  }

  /** The second substitution fills the variable hole and, when the model
      name holds no `[`, touches nothing else. */
  lemma FillVar(model: string, varName: string)
    requires '[' !in model
    ensures ReplaceEach(FilledLines(model, VarPlaceholder), VarPlaceholder, varName) == FilledLines(model, varName)
  {
    var r := ReplaceEach(FilledLines(model, VarPlaceholder), VarPlaceholder, varName);
    var f := FilledLines(model, varName);
    forall i | 0 <= i < |r| ensures r[i] == f[i] {
      FillVarLine(model, varName, i);
    }
  }

  /** Substitution produces exactly the template with the holes filled:
      every other character of the template stays where it was. */
  lemma SubstituteFillsTemplate(model: string, varName: string)
    requires '[' !in model
    ensures Substitute(UpdateCode, model, varName) == Unlines(FilledLines(model, varName))
  {
    ReplaceAllUnlines(TemplateLines, ModelPlaceholder, model);
    FillModel(model);
    ReplaceAllUnlines(FilledLines(model, VarPlaceholder), VarPlaceholder, varName);
    FillVar(model, varName);
  }

  /** Line `i` of the filled template holds no placeholder. */
  lemma FilledLineClean(model: string, varName: string, pat: string, i: int)
    requires '[' !in model && '[' !in varName && IsPlaceholder(pat) && 0 <= i < 10
    ensures !Occurs(FilledLines(model, varName)[i], pat)
  {
    var line := FilledLines(model, varName)[i];
    if i == 2 {
      LookupLine(model, pat);
    } else if i == 1 {
      assert line == varName + ".each do |f|";
      PlainLine(line, pat, "");
    } else if i == 7 {
      assert line == "    " + model + ".create!(f)";
      PlainLine(line, pat, "");
    } else {
      FixedLine(model, varName, i);
      PlainLine(TemplateLines[i], pat, "");
    }
  }

  /** With names free of `[`, no placeholder is left after substitution. */
  lemma SubstituteLeavesNoPlaceholder(model: string, varName: string, pat: string)
    requires '[' !in model && '[' !in varName && IsPlaceholder(pat)
    ensures !Occurs(Substitute(UpdateCode, model, varName), pat)
  {
    SubstituteFillsTemplate(model, varName);
    var f := FilledLines(model, varName);
    forall i | 0 <= i < |f| ensures !Occurs(f[i], pat) {
      FilledLineClean(model, varName, pat, i);
    }
    AbsentUnlines(f, pat);
  }

  /** Substituting again changes nothing, so the tests may rewrite
      `@update_code` in place on every call of `expected_output`. */
  lemma SubstituteIdempotent(model: string, varName: string, model': string, varName': string)
    requires '[' !in model && '[' !in varName
    ensures Substitute(Substitute(UpdateCode, model, varName), model', varName') == Substitute(UpdateCode, model, varName)
  {
    var s := Substitute(UpdateCode, model, varName);
    SubstituteLeavesNoPlaceholder(model, varName, ModelPlaceholder);
    SubstituteLeavesNoPlaceholder(model, varName, VarPlaceholder);
    ReplaceAllAbsent(s, ModelPlaceholder, model');
    ReplaceAllAbsent(s, VarPlaceholder, varName');
  }
}
