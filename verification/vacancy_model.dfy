/** The vacancy record as the server stores it: the five job-type
    choices and the normalised skill list derived from the comma-separated text. */
module VacancyModel {
  import opened Wrappers
  import opened Text
  import opened Seqs
  import MatchFeedback

  datatype JobType = FullTime | PartTime | Contract | Internship | Remote

  /** The stored code of each choice. */
  function Code(t: JobType): string {
    match t
    case FullTime => "full_time"
    case PartTime => "part_time"
    case Contract => "contract"
    case Internship => "internship"
    case Remote => "remote"
  }

  /** The choice a stored code stands for; none for a code outside the five choices. */
  function FromCode(code: string): (r: Option<JobType>)
    ensures r.Some? ==> Code(r.value) == code
  {
    if code == "full_time" then Some(FullTime)
    else if code == "part_time" then Some(PartTime)
    else if code == "contract" then Some(Contract)
    else if code == "internship" then Some(Internship)
    else if code == "remote" then Some(Remote)
    else None
  }

  /** Codes and choices correspond one to one. */
  lemma CodeRoundTrip(t: JobType)
    ensures FromCode(Code(t)) == Some(t)
  {
  }

  const DefaultJobType := FullTime

  /** The job type a new vacancy gets: the given code, or `full_time` when none is given. */
  function JobTypeOrDefault(given: Option<string>): (code: string)
    ensures given.None? ==> FromCode(code) == Some(DefaultJobType)
    ensures given.Some? ==> code == given.value
  {
    match given
    case None => Code(DefaultJobType)
    case Some(c) => c
  }

  /** A stored vacancy; salaries are counted in hundredths. */
  datatype Vacancy = Vacancy(
    id: int,
    recruiter: int,
    title: string,
    description: string,
    requiredSkills: string,
    experienceRequired: nat,
    location: Option<string>,
    jobType: string,
    salaryMinCents: Option<int>,
    salaryMaxCents: Option<int>)

  /** Every choice's code fits the field. */
  lemma CodesFit(t: JobType)
    ensures |Code(t)| <= 50 && FromCode(Code(t)).Some?
  {
  }

  /* ---------------------------------------------------------- skill_list */

  /** The stripped, lower-cased comma segments that are not blank, in order. */
  function NormalizedSegments(pieces: seq<string>): (r: seq<string>)
    ensures |r| <= |pieces|
    ensures forall i :: 0 <= i < |r| ==> r[i] != "" && IsTrimmed(Python, r[i]) && IsLowerCase(r[i])
    decreases |pieces|
  {
    if |pieces| == 0 then []
    else
      var t := Trim(Python, pieces[0]);
      var rest := NormalizedSegments(pieces[1..]);
      if t == "" then rest
      else
        LowerKeepsTrimmed(Python, t);
        CleanCons(Lower(t), rest);
        [Lower(t)] + rest
  }

  lemma CleanCons(s: string, rest: seq<string>)
    requires s != "" && IsTrimmed(Python, s) && IsLowerCase(s)
    requires forall i :: 0 <= i < |rest| ==> rest[i] != "" && IsTrimmed(Python, rest[i]) && IsLowerCase(rest[i])
    ensures forall i :: 0 <= i < |[s] + rest| ==>
      ([s] + rest)[i] != "" && IsTrimmed(Python, ([s] + rest)[i]) && IsLowerCase(([s] + rest)[i])
  {
    var r := [s] + rest;
    forall i | 0 <= i < |r| ensures r[i] != "" && IsTrimmed(Python, r[i]) && IsLowerCase(r[i]) {
      if i > 0 {
        assert r[i] == rest[i - 1];
      }
    }
  }

  /** `Vacancy.skill_list`: the comma segments of the required skills, stripped and
      lower-cased, blank ones dropped. */
  function SkillList(requiredSkills: string): (r: seq<string>)
    ensures |r| <= Count(requiredSkills, ',') + 1
    ensures forall i :: 0 <= i < |r| ==> r[i] != "" && IsTrimmed(Python, r[i]) && IsLowerCase(r[i])
  {
    NormalizedSegments(Split(requiredSkills, ','))
  }

  lemma {:induction false} BlankPieces(s: string)
    requires forall i :: 0 <= i < |s| ==> s[i] == ',' || IsSpace(Python, s[i])
    ensures forall i :: 0 <= i < |Split(s, ',')| ==> AllSpace(Python, Split(s, ',')[i])
    decreases |s|
  {
    if |s| > 0 {
      BlankPieces(s[1..]);
    }
  }

  lemma {:induction false} BlankSegmentsVanish(pieces: seq<string>)
    requires forall i :: 0 <= i < |pieces| ==> AllSpace(Python, pieces[i])
    ensures NormalizedSegments(pieces) == []
    decreases |pieces|
  {
    if |pieces| > 0 {
      BlankSegmentsVanish(pieces[1..]);
    }
  }

  /** Text made only of commas and whitespace, the empty text included, has no skills. */
  lemma BlankTextHasNoSkills(requiredSkills: string)
    requires forall i :: 0 <= i < |requiredSkills| ==> requiredSkills[i] == ',' || IsSpace(Python, requiredSkills[i])
    ensures SkillList(requiredSkills) == []
  {
    BlankPieces(requiredSkills);
    BlankSegmentsVanish(Split(requiredSkills, ','));
  }

  lemma {:induction false} NormalizedSegmentsAsFilter(pieces: seq<string>)
    ensures NormalizedSegments(pieces) ==
      MapSeq(Lower, Filter(s => s != "", MapSeq(t => Trim(Python, t), pieces)))
    decreases |pieces|
  {
    var trim := t => Trim(Python, t);
    var nonBlank := (s: string) => s != "";
    if |pieces| > 0 {
      var x := pieces[0];
      var xs := pieces[1..];
      assert pieces == [x] + xs;
      NormalizedSegmentsAsFilter(xs);
      FilterMapCons(trim, nonBlank, x, xs);
      var t := Trim(Python, x);
      if t != "" {
        MapSeqCons(Lower, t, Filter(nonBlank, MapSeq(trim, xs)));
      }
    }
  }

  /** The stored skill list is the match view's required-skills split with the blank
      entries dropped and the rest lower-cased: both read the same segments in the same
      order. */
  lemma SkillListMatchesRequiredSkills(requiredSkills: string)
    ensures SkillList(requiredSkills) ==
      MapSeq(Lower, Filter(s => s != "", MatchFeedback.RequiredSkills(requiredSkills)))
  {
    NormalizedSegmentsAsFilter(Split(requiredSkills, ','));
  }

  /** A skill list written with stripped, lower-case, non-blank, comma-free entries is
      read back as exactly those entries. */
  lemma {:induction false} SkillListOfJoined(skills: seq<string>)
    requires |skills| >= 1
    requires forall i :: 0 <= i < |skills| ==>
      skills[i] != "" && IsTrimmed(Python, skills[i]) && IsLowerCase(skills[i]) && ',' !in skills[i]
    ensures SkillList(JoinWith(skills, ",")) == skills
  {
    JoinThenSplit(skills, ',');
    KeptSegments(skills);
  }

  lemma {:induction false} KeptSegments(skills: seq<string>)
    requires forall i :: 0 <= i < |skills| ==>
      skills[i] != "" && IsTrimmed(Python, skills[i]) && IsLowerCase(skills[i])
    ensures NormalizedSegments(skills) == skills
    decreases |skills|
  {
    if |skills| > 0 {
      KeptSegments(skills[1..]);
      assert Lower(skills[0]) == skills[0];
      assert skills == [skills[0]] + skills[1..];
    }
  }
}
