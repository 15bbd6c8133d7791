/**
 * The second `validate_file_name`, kept beside its test table: a rejected
 * name is scored by the first structural check it fails, a matching name
 * starts from 100 and loses points per problem.
 */
module DeductionFileName {
  import opened Wrappers
  import opened PyText
  import opened FileNameGrammar
  import PrimitivesFileName

  datatype Verdict = Verdict(score: int, comments: string)

  /** A rejected name: the score and message of the first structural check that fails. */
  function Malformed(clean: string): (r: Verdict)
    ensures !Contains(clean, "_") <==> r.score == 10
    ensures r.score in {10, 30, 50, 65, 70}
    ensures r.score == 70 <==> Contains(clean, "_") && StartsWithInitials(clean) && Contains(clean, "U01")
                               && Contains(clean, "SS01") && HasVersionTag(clean)
  {
    if !Contains(clean, "_") then
      Verdict(10, "File name missing required underscores between components.")
    else if !StartsWithInitials(clean) then
      Verdict(30, "File name should start with 2-3 letter initials followed by underscore.")
    else if !Contains(clean, "U01") then
      Verdict(50, "File name missing required unit number 'U01'.")
    else if !Contains(clean, "SS01") then
      Verdict(50, "File name missing required SoftSkill number 'SS01'.")
    else if !HasVersionTag(clean) then
      Verdict(65, "File name missing required version number (format: _V##).")
    else
      Verdict(70, "File name format incorrect. Expected: XX_U01_SS01_V##[_##|.####]")
  }

  /** Points taken off a matching name: 40 for the unit, 40 for the soft skill, 10 for the iteration. */
  function Deduction(p: NameParts): (d: nat)
    requires ValidParts(p)
    ensures d <= 90
    ensures d == 0 <==> Conforms(p)
    ensures d == 10 * |ComponentIssues(p)| + 30 * (if p.unit != "U01" then 1 else 0)
                                            + 30 * (if p.softskill != "SS01" then 1 else 0)
  {
    (if p.unit != "U01" then 40 else 0) + (if p.softskill != "SS01" then 40 else 0)
    + (if IterationBelowOne(p) then 10 else 0)
  }

  /** The comment of a matching name by the score it is left with. */
  function Feedback(p: NameParts, base: int): (r: string)
    requires ValidParts(p)
  {
    var issues := JoinText(ComponentIssues(p), "; ");
    if base == 100 then PerfectComment(p)
    else if base >= 80 then "Good file naming with minor issues: " + issues
    else if base >= 60 then "File naming needs attention: " + issues
    else "File naming has major issues: " + issues
  }

  /** The score and comments for a file name. */
  function Validate(fileName: string): (r: Verdict)
  {
    if IsBlank(fileName) then Verdict(0, "No file name found.")
    else
      var clean := StripExtension(fileName);
      match MatchName(clean)
        case None => Malformed(clean)
        case Some(p) =>
          var base := 100 - Deduction(p);
          Verdict(if base < 0 then 0 else base, Feedback(p, base))
  }

  /**
   * Scores stay within 0..100 and 0 is kept for a blank name: the
   * deductions never reach 100, so `max(0, base_score)` never bites.
   */
  lemma ScoreRange(fileName: string)
    ensures 0 <= Validate(fileName).score <= 100
    ensures Validate(fileName).score == 0 <==> IsBlank(fileName)
    ensures !IsBlank(fileName) && MatchName(StripExtension(fileName)).Some? ==>
      Validate(fileName).score >= 10
  {
  }

  /** The comment's tier follows the score of a matching name. */
  lemma FeedbackTiers(fileName: string)
    requires !IsBlank(fileName) && MatchName(StripExtension(fileName)).Some?
    ensures var p := MatchName(StripExtension(fileName)).value;
            var r := Validate(fileName);
            (r.score == 100 ==> r.comments == PerfectComment(p))
            && (80 <= r.score < 100 ==> StartsWith(r.comments, "Good file naming with minor issues: "))
            && (60 <= r.score < 80 ==> StartsWith(r.comments, "File naming needs attention: "))
            && (r.score < 60 ==> StartsWith(r.comments, "File naming has major issues: "))
  {
  }

  /** Full marks exactly for a conforming match, as in the other validator. */
  lemma PerfectExactly(fileName: string)
    ensures Validate(fileName).score == 100 <==>
      !IsBlank(fileName) && MatchName(StripExtension(fileName)).Some?
      && Conforms(MatchName(StripExtension(fileName)).value)
    ensures Validate(fileName).score == 100 ==>
      Validate(fileName).comments == PerfectComment(MatchName(StripExtension(fileName)).value)
  {
    if !IsBlank(fileName) {
      var clean := StripExtension(fileName);
      match MatchName(clean)
        case None =>
          assert Validate(fileName) == Malformed(clean);
        case Some(p) =>
          var base := 100 - Deduction(p);
          assert Validate(fileName) == Verdict(if base < 0 then 0 else base, Feedback(p, base));
          if base == 100 {
            assert Feedback(p, base) == PerfectComment(p);
          }
    }
  }

  /** The two validators give full marks to the same names, with the same comment. */
  lemma AgreesOnFullMarks(fileName: string)
    ensures Validate(fileName).score == 100 <==> PrimitivesFileName.Validate(fileName).score == 100
    ensures Validate(fileName).score == 100 ==>
      Validate(fileName).comments == PrimitivesFileName.Validate(fileName).comments
  {
    PerfectExactly(fileName);
    PrimitivesFileName.PerfectExactly(fileName);
  }

  // ---------------------------------------------------------------------------
  // Rows of the test table
  // ---------------------------------------------------------------------------

  /** A name that does not end in whitespace is not blank. */
  lemma NotBlank(name: string)
    requires |name| > 0 && !IsSpace(name[|name| - 1])
    ensures !IsBlank(name)
  {
  }

  /**
   * A name whose last character is no space and, lower-cased, not the last
   * letter of a Maya extension is not blank and keeps its text.
   */
  lemma PlainName(name: string)
    requires |name| > 0 && !IsSpace(name[|name| - 1])
    requires LowerChar(name[|name| - 1]) !in {'a', 'b', 'i', 'y'}
    ensures StripExtension(name) == name && !IsBlank(name)
  {
    NotBlank(name);
    var last := Lower(name)[|name| - 1];
    forall k | 0 <= k < |Extensions|
      ensures !HasExtension(name, Extensions[k])
    {
      var e := Lower(Extensions[k]);
      assert e[|e| - 1] in {'a', 'b', 'i', 'y'};
    }
  }

  /** A name ending in ".ma" loses exactly those three characters. */
  lemma MayaAsciiName(name: string)
    requires |name| >= 3 && name[|name| - 3..] == ".ma"
    ensures StripExtension(name) == name[..|name| - 3]
  {
    var l := Lower(name);
    var n := |name|;
    assert name[n - 3] == '.' && name[n - 2] == 'm' && name[n - 1] == 'a';
    assert l[n - 3..] == ".ma";
    assert HasExtension(name, Extensions[0]);
  }

  /** A plain name that the pattern matches with parts `p` is scored by the deductions on `p`. */
  lemma MatchedScore(s: string, clean: string, p: NameParts)
    requires !IsBlank(s) && StripExtension(s) == clean && ValidParts(p) && Render(p) == clean
    ensures Validate(s).score == 100 - Deduction(p)
  {
    MatchRender(p);
  }

  lemma ExamplePerfect(s: string)
    requires s == "AB_U01_SS01_V01"
    ensures Validate(s).score == 100
  {
    var p := NameParts("AB", "U01", "SS01", "V01", NoIteration);
    assert Render(p) == s && ValidParts(p) && Deduction(p) == 0;
    assert !IsBlank(s) && StripExtension(s) == s by {
      assert s[14] == '1';
      PlainName(s);
    }
    MatchedScore(s, s, p);
  }

  lemma ExampleDotIteration(s: string)
    requires s == "AB_U01_SS01_V01.0001"
    ensures Validate(s).score == 100
  {
    var p := NameParts("AB", "U01", "SS01", "V01", DotIteration("0001"));
    assert Render(p) == s && ValidParts(p);
    assert Deduction(p) == 0 by {
      BelowOneIffZeros("0001");
      assert "0001"[3] != '0';
    }
    assert !IsBlank(s) && StripExtension(s) == s by {
      assert s[19] == '1';
      PlainName(s);
    }
    MatchedScore(s, s, p);
  }

  /** The conforming name of the test table, as parts. */
  lemma ConformingParts(p: NameParts)
    requires p == NameParts("AB", "U01", "SS01", "V01", NoIteration)
    ensures Render(p) == "AB_U01_SS01_V01" && ValidParts(p) && Deduction(p) == 0
  {
  }

  /** The ".ma" extension is removed before the pattern is applied. */
  lemma ExampleMayaAscii(s: string)
    requires s == "AB_U01_SS01_V01.ma"
    ensures Validate(s).score == 100
  {
    var clean := "AB_U01_SS01_V01";
    assert s == clean + ".ma";
    assert s[..15] == clean && s[15..] == ".ma";
    MayaAsciiName(s);
    assert s[17] == 'a';
    NotBlank(s);
    var p := NameParts("AB", "U01", "SS01", "V01", NoIteration);
    ConformingParts(p);
    MatchedScore(s, clean, p);
  }

  /** A wrong unit costs 40 points. */
  lemma ExampleWrongUnit(s: string)
    requires s == "AB_U02_SS01_V01"
    ensures Validate(s).score == 60
  {
    var p := NameParts("AB", "U02", "SS01", "V01", NoIteration);
    assert Render(p) == s && ValidParts(p);
    assert Deduction(p) == 40 by {
      assert p.unit[2] != "U01"[2];
    }
    assert !IsBlank(s) && StripExtension(s) == s by {
      assert s[14] == '1';
      PlainName(s);
    }
    MatchedScore(s, s, p);
  }

  lemma ExampleDashes(s: string)
    requires s == "AB-U01-SS01-V01"
    ensures Validate(s).score == 10
  {
    assert s[14] == '1';
    PlainName(s);
    NoCharNoContains(s, "_", '_');
    if MatchName(s).Some? {
      MatchPassesStructure(s);
    }
  }

  /**
   * The row "AB_U01_SS01_B01" of the test table expects 70 to 90; the
   * validator fails the version check and gives 65.
   */
  lemma ExampleMissingVersionLetter(s: string)
    requires s == "AB_U01_SS01_B01"
    ensures Validate(s).score == 65
  {
    assert s[14] == '1';
    PlainName(s);
    MissingVersionLetterChecks(s);
    if MatchName(s).Some? {
      MatchPassesStructure(s);
    }
    assert Malformed(s).score == 65;
  }

  /** The structural checks on "AB_U01_SS01_B01": all pass but the version check. */
  lemma MissingVersionLetterChecks(s: string)
    requires s == "AB_U01_SS01_B01"
    ensures !HasVersionTag(s)
    ensures StartsWithInitials(s) && Contains(s, "_") && Contains(s, "U01") && Contains(s, "SS01")
  {
    forall i | 0 <= i < |s| - 2
      ensures !OccursAt(s, "_V", i)
    {
      assert s[i..i + 2][1] == s[i + 1];
    }
    assert OccursAt(s, "_", 2) && OccursAt(s, "U01", 3) && OccursAt(s, "SS01", 7);
    assert s[..2] == "AB";
  }
}
