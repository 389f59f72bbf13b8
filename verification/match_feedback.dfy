/** The deterministic rules the server applies when it turns a parsed résumé and a
    vacancy into match feedback: text normalisation, the skill filter of `extract_info`,
    the job text, the formatting check, skill gaps, the required-skills split, the
    recommendations and the excerpt. */
module MatchFeedback {
  import opened Text
  import opened Seqs

  /* ---------------------------------------------------------------- text */

  /** `" ".join(text.split())`: whitespace runs collapsed to one space, both ends bare. */
  function NormalizeText(s: string): (r: string)
    ensures IsCollapsed(r) && IsTrimmed(Python, r)
  {
    JoinedWordsCollapsed(Words(s));
    JoinWith(Words(s), " ")
  }

  /** A collapsed text: the only whitespace is single spaces strictly between
      non-whitespace characters. */
  predicate IsCollapsed(s: string) {
    forall i :: 0 <= i < |s| && IsSpace(Python, s[i]) ==>
      s[i] == ' ' && 0 < i < |s| - 1 && !IsSpace(Python, s[i + 1])
  }

  /** The non-whitespace characters of `s`, in order. */
  function Ink(s: string): string {
    Filter(c => !IsSpace(Python, c), s)
  }

  lemma {:induction false} InkOfWord(w: string)
    requires NoSpace(Python, w)
    ensures Ink(w) == w
    decreases |w|
  {
    if |w| > 0 {
      InkOfWord(w[1..]);
    }
  }

  lemma InkConcat(a: string, b: string)
    ensures Ink(a + b) == Ink(a) + Ink(b)
  {
    FilterConcat(c => !IsSpace(Python, c), a, b);
  }

  /** Joining words with single spaces gives a collapsed text. */
  lemma {:induction false} JoinedWordsCollapsed(ws: seq<string>)
    requires forall i :: 0 <= i < |ws| ==> ws[i] != [] && NoSpace(Python, ws[i])
    ensures IsCollapsed(JoinWith(ws, " "))
    ensures |ws| > 0 ==> JoinWith(ws, " ") != [] && !IsSpace(Python, JoinWith(ws, " ")[0])
    decreases |ws|
  {
    if |ws| > 1 {
      JoinedWordsCollapsed(ws[1..]);
      var w := ws[0];
      var rest := JoinWith(ws[1..], " ");
      var j := w + " " + rest;
      assert JoinWith(ws, " ") == j;
      assert forall i :: 0 <= i < |w| ==> j[i] == w[i];
      assert forall i :: |w| < i < |j| ==> j[i] == rest[i - |w| - 1];
      forall i | 0 <= i < |j| && IsSpace(Python, j[i])
        ensures j[i] == ' ' && 0 < i < |j| - 1 && !IsSpace(Python, j[i + 1])
      {
        if i == |w| {
          assert j[i + 1] == rest[0];
        }
      }
      assert j[0] == w[0];
    } else if |ws| == 1 {
      assert JoinWith(ws, " ") == ws[0];
    }
  }

  /** Joining words with single spaces keeps exactly their characters. */
  lemma {:induction false} InkOfJoinedWords(ws: seq<string>)
    requires forall i :: 0 <= i < |ws| ==> NoSpace(Python, ws[i])
    ensures Ink(JoinWith(ws, " ")) == JoinWith(ws, "")
    decreases |ws|
  {
    if |ws| == 1 {
      InkOfWord(ws[0]);
    } else if |ws| > 1 {
      InkOfJoinedWords(ws[1..]);
      InkConcat(ws[0] + " ", JoinWith(ws[1..], " "));
      InkConcat(ws[0], " ");
      InkOfWord(ws[0]);
      assert JoinWith(ws, "") == ws[0] + "" + JoinWith(ws[1..], "");
    }
  }

  /** The words of `s`, concatenated, are exactly its non-whitespace characters. */
  lemma {:induction false} WordsKeepInk(s: string)
    ensures JoinWith(Words(s), "") == Ink(s)
    decreases |s|
  {
    if |s| > 0 {
      assert s == [s[0]] + s[1..];
      InkConcat([s[0]], s[1..]);
      if IsSpace(Python, s[0]) {
        WordsKeepInk(s[1..]);
      } else {
        var k := WordLength(Python, s);
        var tail := Words(s[k..]);
        WordsKeepInk(s[k..]);
        assert s == s[..k] + s[k..];
        InkConcat(s[..k], s[k..]);
        InkOfWord(s[..k]);
        assert Words(s) == [s[..k]] + tail;
        if |tail| == 0 {
          assert JoinWith(Words(s), "") == s[..k];
          assert JoinWith(tail, "") == "";
        } else {
          assert ([s[..k]] + tail)[1..] == tail;
          assert JoinWith(Words(s), "") == s[..k] + "" + JoinWith(tail, "");
        }
      }
    }
  }

  /** Splitting words joined by single spaces gives the words back. */
  lemma {:induction false} WordsOfJoined(ws: seq<string>)
    requires forall i :: 0 <= i < |ws| ==> ws[i] != [] && NoSpace(Python, ws[i])
    ensures Words(JoinWith(ws, " ")) == ws
    decreases |ws|
  {
    if |ws| == 1 {
      var w := ws[0];
      WordLengthOfWord(w, []);
      assert w + [] == w;
      assert w[|w|..] == [];
      assert w[..|w|] == w;
    } else if |ws| > 1 {
      var w := ws[0];
      var rest := JoinWith(ws[1..], " ");
      var j := w + (" " + rest);
      assert JoinWith(ws, " ") == j;
      WordLengthOfWord(w, " " + rest);
      assert j[..|w|] == w;
      assert j[|w|..] == " " + rest;
      assert (" " + rest)[1..] == rest;
      WordsOfJoined(ws[1..]);
      assert ws == [w] + ws[1..];
    }
  }

  /** Normalised text is collapsed, keeps every non-whitespace character in order, and
      has exactly the words of the input. */
  lemma NormalizeTextShape(s: string)
    ensures IsCollapsed(NormalizeText(s))
    ensures IsTrimmed(Python, NormalizeText(s))
    ensures Ink(NormalizeText(s)) == Ink(s)
    ensures Words(NormalizeText(s)) == Words(s)
  {
    var ws := Words(s);
    JoinedWordsCollapsed(ws);
    InkOfJoinedWords(ws);
    WordsKeepInk(s);
    WordsOfJoined(ws);
  }

  /** A whitespace run between two pieces of text, however long and whatever its
      characters, becomes exactly one space. */
  lemma NormalizeTextAtSpace(a: string, gap: string, b: string)
    requires gap != [] && AllSpace(Python, gap)
    requires Ink(a) != [] && Ink(b) != []
    ensures NormalizeText(a + gap + b) == NormalizeText(a) + " " + NormalizeText(b)
  {
    assert a + gap + b == a + [gap[0]] + (gap[1..] + b);
    WordsSplitAtSpace(a, gap[0], gap[1..] + b);
    WordsSkipSpace(gap[1..], b);
    WordsKeepInk(a);
    WordsKeepInk(b);
    JoinConcat(Words(a), Words(b), " ");
  }

  /** Normalising twice is normalising once. */
  lemma NormalizeTextIdempotent(s: string)
    ensures NormalizeText(NormalizeText(s)) == NormalizeText(s)
  {
    WordsOfJoined(Words(s));
  }

  /** `resume_text[:300] + "..."`: at most the first 300 characters, then an ellipsis. */
  function Excerpt(text: string): (r: string)
    ensures |r| == (if |text| < 300 then |text| else 300) + 3
    ensures r[..|r| - 3] <= text && r[|r| - 3..] == "..."
    ensures |text| <= 300 ==> r == text + "..."
  {
    (if |text| < 300 then text else text[..300]) + "..."
  }

  /* ---------------------------------------------------------- extract_info */

  const PredefinedSkills: seq<string> :=
    ["python", "django", "react", "javascript", "spacy", "nlp",
     "tensorflow", "postgresql", "git", "html", "css", "java"]

  /** The filter `extract_info` applies to each token text. */
  predicate IsSkillToken(t: string) {
    Lower(t) in PredefinedSkills && |t| > 2
  }

  /** The length test in the filter never rejects anything: every predefined skill is
      at least three characters long and lower-casing keeps the length. */
  lemma LengthTestRedundant(t: string)
    ensures IsSkillToken(t) <==> Lower(t) in PredefinedSkills
  {
    if Lower(t) in PredefinedSkills {
      assert |Lower(t)| >= 3;
    }
  }

  /** `extract_info`'s skills: the lower-cased token texts that are predefined skills,
      without duplicates. Python builds a set, so the order of the list is unspecified;
      this keeps first occurrences, and the contract states only the content. */
  method ExtractSkills(tokens: seq<string>) returns (skills: seq<string>)
    ensures forall s :: s in skills <==> exists i :: 0 <= i < |tokens| && IsSkillToken(tokens[i]) && Lower(tokens[i]) == s
    ensures forall i, j :: 0 <= i < j < |skills| ==> skills[i] != skills[j]
    ensures forall i :: 0 <= i < |skills| ==> skills[i] in PredefinedSkills && IsLowerCase(skills[i])
  {
    skills := [];
    var n := 0;
    while n < |tokens|
      invariant 0 <= n <= |tokens|
      invariant forall s :: s in skills <==> exists i :: 0 <= i < n && IsSkillToken(tokens[i]) && Lower(tokens[i]) == s
      invariant forall i, j :: 0 <= i < j < |skills| ==> skills[i] != skills[j]
      invariant forall i :: 0 <= i < |skills| ==> skills[i] in PredefinedSkills && IsLowerCase(skills[i])
    {
      var t := tokens[n];
      if IsSkillToken(t) && Lower(t) !in skills {
        skills := skills + [Lower(t)];
      }
      n := n + 1;
    }
  }

  /* ------------------------------------------------------------ job text */

  /** `build_job_text_from_vacancy`: the required-skills text and the years of experience
      followed by a space, joined by a newline. */
  function BuildJobText(requiredSkills: string, experience: nat): (r: string)
    ensures |r| == |requiredSkills| + 1 + |Decimal(experience)| + 1
    ensures r[..|requiredSkills|] == requiredSkills && r[|requiredSkills|] == '\n'
    ensures r[|requiredSkills| + 1..] == Decimal(experience) + " "
  {
    var lines := [requiredSkills, Decimal(experience) + " "];
    assert JoinWith(lines, "\n") == requiredSkills + "\n" + JoinWith(lines[1..], "\n");
    JoinWith(lines, "\n")
  }

  /** The job text falls apart into its two lines again whenever the skills text has no
      line break of its own. */
  lemma JobTextLines(requiredSkills: string, experience: nat)
    requires '\n' !in requiredSkills
    ensures Split(BuildJobText(requiredSkills, experience), '\n') == [requiredSkills, Decimal(experience) + " "]
  {
    var second := Decimal(experience) + " ";
    assert '\n' !in second by {
      assert second == Digits(experience) + " ";
      forall i | 0 <= i < |second| ensures second[i] != '\n' {
        if i < |Digits(experience)| {
          assert IsDigit(Digits(experience)[i]);
        }
      }
    }
    JoinThenSplit([requiredSkills, second], '\n');
  }

  /* ----------------------------------------------------- formatting check */

  const MissingExperience := "Missing 'Experience' section."
  const MissingEducation := "Missing 'Education' section."
  const MissingSkills := "Missing 'Skills' section."

  /** Position of an issue in the fixed reporting order. */
  function IssueRank(issue: string): int {
    if issue == MissingExperience then 0
    else if issue == MissingEducation then 1
    else if issue == MissingSkills then 2
    else 3
  }

  /** `check_formatting`: one issue per section keyword that is not a substring of the
      lower-cased text, in the order experience, education, skills. */
  function CheckFormatting(text: string): (issues: seq<string>)
    ensures |issues| <= 3
    ensures MissingExperience in issues <==> !Contains(Lower(text), "experience")
    ensures MissingEducation in issues <==> !Contains(Lower(text), "education")
    ensures MissingSkills in issues <==> !Contains(Lower(text), "skills")
    ensures forall i, j :: 0 <= i < j < |issues| ==> IssueRank(issues[i]) < IssueRank(issues[j]) < 3
  {
    var low := Lower(text);
    (if Contains(low, "experience") then [] else [MissingExperience])
    + (if Contains(low, "education") then [] else [MissingEducation])
    + (if Contains(low, "skills") then [] else [MissingSkills])
  }

  lemma LowerIdempotent(s: string)
    ensures Lower(Lower(s)) == Lower(s)
  {
  }

  /** The check ignores letter case: it reports the same issues for the lower-cased text. */
  lemma CheckFormattingCaseBlind(text: string)
    ensures CheckFormatting(Lower(text)) == CheckFormatting(text)
  {
    LowerIdempotent(text);
  }

  /* ------------------------------------------------------------ skill gaps */

  /** `skill.strip().lower()`. */
  function NormalizeSkill(s: string): (r: string)
    ensures IsTrimmed(Python, r) && IsLowerCase(r)
    ensures |r| == |Trim(Python, s)| && forall i :: 0 <= i < |r| ==> r[i] == LowerChar(Trim(Python, s)[i])
  {
    LowerKeepsTrimmed(Python, Trim(Python, s));
    Lower(Trim(Python, s))
  }

  /** `get_skill_gaps`: the normalised required skills that are not among the normalised
      résumé skills, in the required order, duplicates kept. */
  function SkillGaps(resumeSkills: seq<string>, requiredSkills: seq<string>): (gaps: seq<string>)
    ensures |gaps| <= |requiredSkills|
    ensures forall g :: g in gaps <==>
      g in MapSeq(NormalizeSkill, requiredSkills) && g !in MapSeq(NormalizeSkill, resumeSkills)
    ensures forall g ::
      multiset(gaps)[g] == if g in MapSeq(NormalizeSkill, resumeSkills) then 0 else multiset(MapSeq(NormalizeSkill, requiredSkills))[g]
  {
    var have := MapSeq(NormalizeSkill, resumeSkills);
    var want := MapSeq(NormalizeSkill, requiredSkills);
    var missing := MissingFrom(have);
    forall g ensures g in Filter(missing, want) <==> g in want && g !in have {
      FilterMembership(missing, want, g);
    }
    FilterCounts(missing, want);
    Filter(missing, want)
  }

  /** The test `get_skill_gaps` applies to a normalised required skill. */
  function MissingFrom(have: seq<string>): string -> bool {
    s => s !in have
  }

  /** Gaps are found requirement by requirement: the gaps of two lists of requirements
      are the gaps of the first followed by those of the second, so the gaps keep the
      required order. */
  lemma SkillGapsConcat(resumeSkills: seq<string>, a: seq<string>, b: seq<string>)
    ensures SkillGaps(resumeSkills, a + b) == SkillGaps(resumeSkills, a) + SkillGaps(resumeSkills, b)
  {
    MapSeqConcat(NormalizeSkill, a, b);
    FilterConcat(MissingFrom(MapSeq(NormalizeSkill, resumeSkills)), MapSeq(NormalizeSkill, a), MapSeq(NormalizeSkill, b));
  }

  /** One requirement gives its normalised form as a gap iff no résumé skill normalises
      to the same text. */
  lemma SkillGapsOfOne(resumeSkills: seq<string>, x: string)
    ensures SkillGaps(resumeSkills, [x]) ==
      if NormalizeSkill(x) in MapSeq(NormalizeSkill, resumeSkills) then [] else [NormalizeSkill(x)]
  {
    var want := MapSeq(NormalizeSkill, [x]);
    assert want == [NormalizeSkill(x)];
    assert want[1..] == [];
  }

  /** There are no gaps exactly when every required skill, normalised, is among the
      normalised résumé skills. */
  lemma NoGapsIffCovered(resumeSkills: seq<string>, requiredSkills: seq<string>)
    ensures SkillGaps(resumeSkills, requiredSkills) == [] <==>
      forall i :: 0 <= i < |requiredSkills| ==> NormalizeSkill(requiredSkills[i]) in MapSeq(NormalizeSkill, resumeSkills)
  {
    var gaps := SkillGaps(resumeSkills, requiredSkills);
    var want := MapSeq(NormalizeSkill, requiredSkills);
    if gaps != [] {
      assert gaps[0] in gaps;
      var k :| 0 <= k < |want| && want[k] == gaps[0];
      assert NormalizeSkill(requiredSkills[k]) !in MapSeq(NormalizeSkill, resumeSkills);
    } else {
      forall i | 0 <= i < |requiredSkills|
        ensures NormalizeSkill(requiredSkills[i]) in MapSeq(NormalizeSkill, resumeSkills)
      {
        assert want[i] in want;
      }
    }
  }

  /** Normalisation makes the comparison blind to case and surrounding whitespace. */
  lemma GapsIgnoreCaseAndPadding(resumeSkill: string, requiredSkill: string)
    requires NormalizeSkill(resumeSkill) == NormalizeSkill(requiredSkill)
    ensures SkillGaps([resumeSkill], [requiredSkill]) == []
  {
    assert MapSeq(NormalizeSkill, [resumeSkill]) == [NormalizeSkill(resumeSkill)];
    NoGapsIffCovered([resumeSkill], [requiredSkill]);
  }

  /* ------------------------------------------------------- required skills */

  /** `[skill.strip() for skill in required_skills.split(',')]`: one entry per comma
      segment, stripped, empty ones and letter case kept. */
  function RequiredSkills(text: string): (r: seq<string>)
    ensures |r| == Count(text, ',') + 1
    ensures forall i :: 0 <= i < |r| ==> r[i] == Trim(Python, Split(text, ',')[i])
    ensures forall i :: 0 <= i < |r| ==> IsTrimmed(Python, r[i]) && ',' !in r[i]
  {
    var pieces := Split(text, ',');
    var r := MapSeq(s => Trim(Python, s), pieces);
    assert forall i :: 0 <= i < |r| ==> ',' !in r[i] by {
      forall i | 0 <= i < |r| ensures ',' !in r[i] {
        TrimIsInfix(Python, pieces[i]);
      }
    }
    r
  }

  /** Trimming keeps a contiguous part of the string, so it adds no character. */
  lemma TrimIsInfix(w: Whitespace, s: string)
    ensures forall c :: c in Trim(w, s) ==> c in s
  {
    var r := Trim(w, s);
    var k :| PaddedAt(w, s, r, k);
    SliceChars(s, k, k + |r|);
  }

  /** Every character of a slice occurs in the whole. */
  lemma SliceChars(s: string, i: int, j: int)
    requires 0 <= i <= j <= |s|
    ensures forall c :: c in s[i..j] ==> c in s
  {
    forall c | c in s[i..j] ensures c in s {
      var n :| 0 <= n < j - i && s[i..j][n] == c;
      assert s[i + n] == c;
    }
  }

  /** Joining stripped, comma-free skills with commas and splitting again gives them back
      unchanged: the split neither lower-cases nor drops anything. */
  lemma {:induction false} RequiredSkillsOfJoined(skills: seq<string>)
    requires |skills| >= 1
    requires forall i :: 0 <= i < |skills| ==> IsTrimmed(Python, skills[i]) && ',' !in skills[i]
    ensures RequiredSkills(JoinWith(skills, ",")) == skills
  {
    JoinThenSplit(skills, ',');
  }

  /* ------------------------------------------------------- recommendations */

  const ImproveFormatting := "Improve formatting."
  const AddKeywords := "Add relevant keywords."

  function AddMissingSkills(gaps: seq<string>): string {
    "Add missing skills: " + JoinWith(gaps, ", ")
  }

  /** Position of a recommendation in the fixed order. */
  function RecommendationRank(line: string): int {
    if line == ImproveFormatting then 1
    else if line == AddKeywords then 2
    else 0
  }

  /** The recommendations: a missing-skills line iff there are gaps, the formatting
      advice iff there are formatting issues, the keyword advice iff there are keyword
      suggestions, in that order. */
  function Recommendations(gaps: seq<string>, formatting: seq<string>, keywords: seq<string>): (r: seq<string>)
    ensures |r| <= 3
    ensures AddMissingSkills(gaps) in r <==> gaps != []
    ensures ImproveFormatting in r <==> formatting != []
    ensures AddKeywords in r <==> keywords != []
    ensures forall i :: 0 <= i < |r| ==>
      r[i] == AddMissingSkills(gaps) || r[i] == ImproveFormatting || r[i] == AddKeywords
    ensures forall i, j :: 0 <= i < j < |r| ==> RecommendationRank(r[i]) < RecommendationRank(r[j])
  {
    var m := AddMissingSkills(gaps);
    assert m != ImproveFormatting && m != AddKeywords by {
      assert m[0] == 'A' && m[4] == 'm';
      assert ImproveFormatting[0] == 'I';
      assert AddKeywords[4] == 'r';
    }
    (if gaps != [] then [m] else [])
    + (if formatting != [] then [ImproveFormatting] else [])
    + (if keywords != [] then [AddKeywords] else [])
  }
}
