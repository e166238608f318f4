/** The section vocabulary both similarity variants share: the section names a
    resume and a job description are split into, the fixed resume-to-job mapping,
    the per-pair score with its empty-side rule, and the arithmetic mean. */
module Sections {
  import opened Dicts

  const QualificationsAndEducation := "Qualifications and Education"
  const SkillsAndCertifications := "Skills and Certifications"
  const ProjectsAndWorkExperience := "Projects and Work Experience"
  const AboutCompany := "About Company"
  const RoleOverview := "Role Overview"
  const RequiredSkillsAndTechnologies := "Required Skills and Technologies"
  const ResponsibilitiesAndDuties := "Responsibilities and Duties"

  /** The resume sections, in the order the summarisers produce them. */
  const ResumeSectionNames := [QualificationsAndEducation, SkillsAndCertifications, ProjectsAndWorkExperience]

  /** The job-description sections, in the order the summarisers produce them. */
  const JobSectionNames := [AboutCompany, RoleOverview, RequiredSkillsAndTechnologies,
                            QualificationsAndEducation, ResponsibilitiesAndDuties]

  /** Which resume section is compared with which job-description section, walked in this order. */
  const SectionPairs: seq<(string, string)> := [
    (QualificationsAndEducation, QualificationsAndEducation),
    (SkillsAndCertifications, RequiredSkillsAndTechnologies),
    (ProjectsAndWorkExperience, ResponsibilitiesAndDuties)
  ]

  /** Sentence embedding of both texts followed by their cosine similarity, left
      uninterpreted: the first argument is the resume text, the second the job text. */
  type Similarity = (string, string) -> real

  /** The texts compared for pair `i`; a missing section reads as "". */
  function PairTexts(i: nat, resume: Dict<string>, jd: Dict<string>): (string, string)
    requires i < |SectionPairs|
  {
    (Get(resume, SectionPairs[i].0, ""), Get(jd, SectionPairs[i].1, ""))
  }

  /** Pair `i` needs the model exactly when both of its texts are non-empty. */
  predicate Scored(i: nat, resume: Dict<string>, jd: Dict<string>)
    requires i < |SectionPairs|
  {
    PairTexts(i, resume, jd).0 != "" && PairTexts(i, resume, jd).1 != ""
  }

  /** The value recorded for pair `i`: 0.0 without consulting the model when a side
      is empty, otherwise the similarity of resume text to job text. */
  function PairScore(i: nat, resume: Dict<string>, jd: Dict<string>, sim: Similarity): real
    requires i < |SectionPairs|
  {
    if Scored(i, resume, jd) then sim(PairTexts(i, resume, jd).0, PairTexts(i, resume, jd).1) else 0.0
  }

  /** The label `"<resume section> ↔ <job section>"` of pair `i`. */
  function PairLabel(i: nat): string
    requires i < |SectionPairs|
  {
    SectionPairs[i].0 + " \U{2194} " + SectionPairs[i].1
  }

  /** The lengths of the job sections and of the pair labels, which tell all of them apart. */
  lemma KeyLengths()
    ensures |SectionPairs[0].1| == 28 && |SectionPairs[1].1| == 32 && |SectionPairs[2].1| == 27
    ensures |PairLabel(0)| == 59 && |PairLabel(1)| == 60 && |PairLabel(2)| == 58
  {
  }

  /** The texts sent to the embedding model by the first `n` pairs, in order. */
  function Encoded(resume: Dict<string>, jd: Dict<string>, n: nat): seq<(string, string)>
    requires n <= |SectionPairs|
  {
    if n == 0 then []
    else if Scored(n - 1, resume, jd) then Encoded(resume, jd, n - 1) + [PairTexts(n - 1, resume, jd)]
    else Encoded(resume, jd, n - 1)
  }

  function Sum(xs: seq<real>): real {
    if xs == [] then 0.0 else Sum(xs[..|xs| - 1]) + xs[|xs| - 1]
  }

  /** `np.mean` of a non-empty list. */
  function Mean(xs: seq<real>): real
    requires xs != []
  {
    Sum(xs) / (|xs| as real)
  }

  /** A pair with an empty or missing side scores exactly 0.0, whatever the other side holds. */
  lemma EmptySideScoresZero(i: nat, resume: Dict<string>, jd: Dict<string>, sim: Similarity)
    requires i < |SectionPairs|
    requires !HasKey(resume, SectionPairs[i].0) || Get(resume, SectionPairs[i].0, "") == ""
             || !HasKey(jd, SectionPairs[i].1) || Get(jd, SectionPairs[i].1, "") == ""
    ensures PairScore(i, resume, jd, sim) == 0.0
    ensures forall p :: p in Encoded(resume, jd, |SectionPairs|) ==> p.0 != "" && p.1 != ""
  {
    EncodedNonEmpty(resume, jd, |SectionPairs|);
  }

  /** Only pairs with two non-empty texts ever reach the embedding model, and at most one request per pair. */
  lemma {:induction false} EncodedNonEmpty(resume: Dict<string>, jd: Dict<string>, n: nat)
    requires n <= |SectionPairs|
    ensures |Encoded(resume, jd, n)| <= n
    ensures forall p :: p in Encoded(resume, jd, n) ==> p.0 != "" && p.1 != ""
  {
    if n > 0 {
      EncodedNonEmpty(resume, jd, n - 1);
    }
  }
}
