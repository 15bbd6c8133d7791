/**
 * `validate_file_name` of the U01_SS01 primitives assignment: a score that
 * falls with the number of problems found, and a comment that lists them.
 */
module PrimitivesFileName {
  import opened PyText
  import opened FileNameGrammar

  datatype Verdict = Verdict(score: int, comments: string)

  const ExpectedFormat: string := "XX_U01_SS01_V##[_##|.####]"

  /** The five structural checks on a name the pattern rejects, as the messages of those that fail. */
  function StructuralErrors(clean: string): (r: seq<string>)
    ensures |r| <= 5
    ensures r == [] <==> Contains(clean, "_") && StartsWithInitials(clean) && Contains(clean, "U01")
                         && Contains(clean, "SS01") && HasVersionTag(clean)
  {
    var a := if !Contains(clean, "_") then ["Missing required underscores between components"] else [];
    var b := if !StartsWithInitials(clean) then ["Should start with 2-3 letter initials followed by underscore"] else [];
    var c := if !Contains(clean, "U01") then ["Missing required unit number 'U01'"] else [];
    var d := if !Contains(clean, "SS01") then ["Missing required SoftSkill number 'SS01'"] else [];
    var e := if !HasVersionTag(clean) then ["Missing required version number (format: _V##)"] else [];
    assert |a + b + c + d + e| == |a| + |b| + |c| + |d| + |e|;
    a + b + c + d + e
  }

  /** The score of a rejected name by its number of structural errors. */
  function MalformedScore(errorCount: nat): (r: int)
    ensures r in {50, 70, 90}
    ensures errorCount >= 3 <==> r == 50
    ensures errorCount == 1 <==> r == 90
  {
    if errorCount >= 3 then 50
    else if errorCount == 2 then 70
    else if errorCount == 1 then 90
    else 70
  }

  function MalformedComment(errors: seq<string>): (r: string)
    ensures errors != [] ==> StartsWith(r, "File name has " + IntToString(|errors|) + " structural error(s): ")
    ensures EndsWith(r, ExpectedFormat)
  {
    if |errors| > 0 then
      "File name has " + IntToString(|errors|) + " structural error(s): " + JoinText(errors, "; ")
      + ". Expected format: " + ExpectedFormat
    else "File name format incorrect. Expected: " + ExpectedFormat
  }

  /** The score of a matching name by its number of component errors. */
  function MatchedScore(errorCount: nat): (r: int)
    ensures r in {50, 70, 90, 100}
    ensures errorCount == 0 <==> r == 100
  {
    if errorCount == 0 then 100
    else if errorCount == 1 then 90
    else if errorCount == 2 then 70
    else 50
  }

  function MatchedComment(p: NameParts, errors: seq<string>): (r: string)
    requires ValidParts(p)
    ensures errors == [] ==> r == PerfectComment(p)
    ensures |errors| == 1 ==> EndsWith(r, errors[0])
    ensures errors != [] ==> !StartsWith(r, "Perfect")
  {
    if |errors| == 0 then PerfectComment(p)
    else
      var r := if |errors| == 1 then "Good file naming with 1 error: " + errors[0]
               else if |errors| == 2 then "File naming has 2 errors: " + errors[0] + "; " + errors[1]
               else "File naming has " + IntToString(|errors|) + " errors: " + JoinText(errors, "; ");
      assert r[0] in {'G', 'F'};
      r
  }

  /** The score and comments for a file name. */
  function Validate(fileName: string): (r: Verdict)
  {
    if IsBlank(fileName) then Verdict(0, "No file name found.")
    else
      var clean := StripExtension(fileName);
      match MatchName(clean)
        case None =>
          var errors := StructuralErrors(clean);
          Verdict(MalformedScore(|errors|), MalformedComment(errors))
        case Some(p) =>
          var errors := ComponentIssues(p);
          Verdict(MatchedScore(|errors|), MatchedComment(p, errors))
  }

  /** Every score is one of the five the validator hands out; 0 only for a blank name. */
  lemma ScoreRange(fileName: string)
    ensures Validate(fileName).score in {0, 50, 70, 90, 100}
    ensures Validate(fileName).score == 0 <==> IsBlank(fileName)
  {
    if !IsBlank(fileName) {
      var clean := StripExtension(fileName);
      match MatchName(clean)
        case None =>
          assert Validate(fileName).score == MalformedScore(|StructuralErrors(clean)|);
        case Some(p) =>
          assert Validate(fileName).score == MatchedScore(|ComponentIssues(p)|);
    }
  }

  /**
   * Full marks exactly for a name that, once its extension is removed,
   * matches the pattern with unit U01, soft skill SS01 and no iteration
   * below 1; the comment then echoes the parts.
   */
  lemma PerfectExactly(fileName: string)
    ensures Validate(fileName).score == 100 <==>
      !IsBlank(fileName) && MatchName(StripExtension(fileName)).Some?
      && Conforms(MatchName(StripExtension(fileName)).value)
    ensures Validate(fileName).score == 100 ==>
      Validate(fileName).comments == PerfectComment(MatchName(StripExtension(fileName)).value)
  {
    if !IsBlank(fileName) {
      var clean := StripExtension(fileName);
      match MatchName(clean)
        case None =>
          assert Validate(fileName).score == MalformedScore(|StructuralErrors(clean)|);
        case Some(p) =>
          var errors := ComponentIssues(p);
          assert Validate(fileName) == Verdict(MatchedScore(|errors|), MatchedComment(p, errors));
    }
  }

  /**
   * A rejected name that passes all five structural checks scores 70, less
   * than one that fails exactly one of them (90).
   */
  lemma MalformedNotMonotone(a: string, b: string)
    requires !IsBlank(a) && MatchName(StripExtension(a)).None? && StructuralErrors(StripExtension(a)) == []
    requires !IsBlank(b) && MatchName(StripExtension(b)).None? && |StructuralErrors(StripExtension(b))| == 1
    ensures Validate(a).score == 70 && Validate(b).score == 90
  {
  }
}
