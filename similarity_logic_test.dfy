/** The stand-alone experiment in `similarity_logic_test.py`: summarisers that let
    a failing request raise out of them, and the earlier variant of the section-pair
    similarity, which labels every pair `"R ↔ J"` and calls the mean
    "Average Similarity". */
module SimilarityLogicTest {
  import opened Wrappers
  import opened Text
  import opened Dicts
  import opened Chat
  import opened Sections
  import Utils

  // ---------------------------------------------------------------------------
  // Summarisers (similarity_logic_test.py:11-143)
  // ---------------------------------------------------------------------------

  /** The frames of the three resume prompts; they ask to "list" where `utils.py` asks to "extract". */
  const ResumeFrames := [
    (Utils.Opening(Utils.Indent12, Utils.ResumeRole, Utils.ResumeGiven),
     Utils.Closing(Utils.Indent12, "Directly list all the qualifications or education of the candidate from the above given resume.")),
    (Utils.Opening(Utils.Indent15, Utils.ResumeRole, Utils.ResumeGiven),
     Utils.Closing(Utils.Indent15, "Directly list all the Skills and certifications of the candidate from the above given resume.")),
    (Utils.Opening(Utils.Indent15, Utils.ResumeRole, Utils.ResumeGiven),
     Utils.Closing(Utils.Indent15, "Directly list all the Projects and Work Experience of the candidate from the above given resume."))
  ]

  /** The prompt dict of `summarize_resume_into_sections`. */
  function ResumePrompts(resumeText: string): (prompts: Dict<string>)
    ensures Keys(prompts) == ResumeSectionNames && DistinctKeys(prompts)
    ensures forall i :: 0 <= i < |prompts| ==> Contains(prompts[i].1, resumeText)
  {
    Utils.Framed(ResumeSectionNames, ResumeFrames, resumeText)
  }

  /** The prompt dict of `summarize_job_description_into_sections`, the same as `utils.py`'s. */
  function JobPrompts(jdText: string): (prompts: Dict<string>)
    ensures Keys(prompts) == JobSectionNames && DistinctKeys(prompts)
    ensures forall i :: 0 <= i < |prompts| ==> Contains(prompts[i].1, jdText)
  {
    Utils.JobSummaryPrompts(jdText)
  }

  /** Runs the shared loop over `prompts`; `None` stands for the exception of the
      first failing request, which these summarisers do not catch. */
  method Summarize(prompts: Dict<string>, model: Model) returns (sections: Option<Dict<string>>, requests: nat)
    requires DistinctKeys(prompts)
    ensures sections.Some? <==> forall i :: 0 <= i < |prompts| ==> AnswersAt(prompts, model, i)
    ensures sections.Some? ==>
      Keys(sections.value) == Keys(prompts)
      && forall i :: 0 <= i < |prompts| ==>
           model(i, prompts[i].1).Answer? && sections.value[i].1 == Strip(model(i, prompts[i].1).content)
    ensures requests <= |prompts|
    ensures sections.None? ==> requests >= 1 && !AnswersAt(prompts, model, requests - 1)
                               && forall i :: 0 <= i < requests - 1 ==> AnswersAt(prompts, model, i)
  {
    var outcome;
    outcome, requests := AskEach(prompts, model);
    AnsweredIffNoneRaised(prompts, model, |prompts|);
    match outcome
    case Answered(d) =>
      AnsweredSections(prompts, model, |prompts|);
      sections := Some(d);
    case FailedAt(_, _) =>
      FailedAtFirst(prompts, model, |prompts|);
      sections := None;
  }

  /** `summarize_resume_into_sections`: the three resume sections, in order, each the stripped answer. */
  method SummarizeResumeIntoSections(resumeText: string, model: Model) returns (sections: Option<Dict<string>>)
    ensures sections.Some? <==> forall i :: 0 <= i < 3 ==> AnswersAt(ResumePrompts(resumeText), model, i)
    ensures sections.Some? ==>
      Keys(sections.value) == ResumeSectionNames
      && forall i :: 0 <= i < 3 ==> model(i, ResumePrompts(resumeText)[i].1).Answer?
                                    && sections.value[i].1 == Strip(model(i, ResumePrompts(resumeText)[i].1).content)
  {
    var requests;
    sections, requests := Summarize(ResumePrompts(resumeText), model);
  }

  /** `summarize_job_description_into_sections`: the five job sections, "About Company" first. */
  method SummarizeJobDescriptionIntoSections(jdText: string, model: Model) returns (sections: Option<Dict<string>>)
    ensures sections.Some? <==> forall i :: 0 <= i < 5 ==> AnswersAt(JobPrompts(jdText), model, i)
    ensures sections.Some? ==>
      Keys(sections.value) == JobSectionNames
      && forall i :: 0 <= i < 5 ==> model(i, JobPrompts(jdText)[i].1).Answer?
                                    && sections.value[i].1 == Strip(model(i, JobPrompts(jdText)[i].1).content)
  {
    var requests;
    sections, requests := Summarize(JobPrompts(jdText), model);
  }

  // ---------------------------------------------------------------------------
  // Section similarity (similarity_logic_test.py:145-185)
  // ---------------------------------------------------------------------------

  const AverageSimilarity := "Average Similarity"

  /** What this variant of `compute_section_similarity` returns. */
  function SectionScores(resume: Dict<string>, jd: Dict<string>, sim: Similarity): Dict<real> {
    var s0, s1, s2 := PairScore(0, resume, jd, sim), PairScore(1, resume, jd, sim), PairScore(2, resume, jd, sim);
    [(PairLabel(0), s0), (PairLabel(1), s1), (PairLabel(2), s2), (AverageSimilarity, Mean([s0, s1, s2]))]
  }

  /** The three labels and "Average Similarity" all differ in length. */
  lemma LabelsDiffer(i: nat, j: nat)
    requires i < j < |SectionPairs|
    ensures PairLabel(i) != PairLabel(j) && PairLabel(i) != AverageSimilarity && PairLabel(j) != AverageSimilarity
  {
    KeyLengths();
    assert |AverageSimilarity| == 18;
  }

  /** The keys never depend on the input: three `"R ↔ J"` labels in mapping order,
      then "Average Similarity", all distinct; pair `i` holds its pair score, and the
      average is the sum of the three pair values divided by three, zeros included. */
  lemma SectionScoresSpec(resume: Dict<string>, jd: Dict<string>, sim: Similarity)
    ensures var d := SectionScores(resume, jd, sim);
      Keys(d) == [PairLabel(0), PairLabel(1), PairLabel(2), AverageSimilarity] && DistinctKeys(d)
      && (forall i :: 0 <= i < 3 ==> d[i].1 == PairScore(i, resume, jd, sim))
      && Get(d, AverageSimilarity, 0.0) == (d[0].1 + d[1].1 + d[2].1) / 3.0
  {
    var d := SectionScores(resume, jd, sim);
    LabelsDiffer(0, 1);
    LabelsDiffer(0, 2);
    LabelsDiffer(1, 2);
    Utils.MeanOfThree(d[0].1, d[1].1, d[2].1);
    GetAt(d, 3, 0.0);
  }

  /** The two variants compute the same four values and differ only in how they name them:
      a scored pair is named by its job section in `utils.py` and by its `"R ↔ J"` label here. */
  lemma VariantsAgreeOnValues(resume: Dict<string>, jd: Dict<string>, sim: Similarity)
    ensures Values(SectionScores(resume, jd, sim)) == Values(Utils.SectionScores(resume, jd, sim))
    ensures forall i :: 0 <= i < 3 ==>
      (SectionScores(resume, jd, sim)[i].0 == Utils.SectionScores(resume, jd, sim)[i].0 <==> !Scored(i, resume, jd))
  {
    forall i | 0 <= i < 3
      ensures SectionScores(resume, jd, sim)[i].0 == Utils.SectionScores(resume, jd, sim)[i].0 <==> !Scored(i, resume, jd)
    {
      KeyLengths();
    }
  }

  /** Storing pair `i` extends the first `i` entries of the result by its entry. */
  lemma StorePair(resume: Dict<string>, jd: Dict<string>, sim: Similarity, i: nat, d: Dict<real>)
    requires i < |SectionPairs| && d == SectionScores(resume, jd, sim)[..i]
    ensures Set(d, PairLabel(i), PairScore(i, resume, jd, sim)) == SectionScores(resume, jd, sim)[..i + 1]
  {
    var target := SectionScores(resume, jd, sim);
    if i == 1 {
      LabelsDiffer(0, 1);
    } else if i == 2 {
      LabelsDiffer(0, 2);
      LabelsDiffer(1, 2);
    }
    assert target[i] == (PairLabel(i), PairScore(i, resume, jd, sim));
    SetAbsent(d, PairLabel(i), PairScore(i, resume, jd, sim));
    assert target[..i + 1] == target[..i] + [target[i]];
  }

  /** Storing the mean of the three pair values completes the result. */
  lemma StoreAverage(resume: Dict<string>, jd: Dict<string>, sim: Similarity, d: Dict<real>)
    requires d == SectionScores(resume, jd, sim)[..3]
    ensures Set(d, AverageSimilarity, Mean(Values(d))) == SectionScores(resume, jd, sim)
  {
    var target := SectionScores(resume, jd, sim);
    LabelsDiffer(0, 2);
    LabelsDiffer(1, 2);
    SetAbsent(d, AverageSimilarity, Mean(Values(d)));
    assert Values(d) == [target[0].1, target[1].1, target[2].1];
    assert target == d + [target[3]];
  }

  /** `compute_section_similarity` of the experiment: walks the three pairs in order,
      scoring a pair only when both sides are non-empty, always under its label, then
      appends the mean. `encoded` lists the text pairs handed to the embedding model. */
  method ComputeSectionSimilarity(resume: Dict<string>, jd: Dict<string>, sim: Similarity)
    returns (similarities: Dict<real>, encoded: seq<(string, string)>)
    ensures similarities == SectionScores(resume, jd, sim)
    ensures encoded == Encoded(resume, jd, |SectionPairs|)
  {
    similarities := [];
    encoded := [];
    for i := 0 to |SectionPairs|
      invariant similarities == SectionScores(resume, jd, sim)[..i]
      invariant encoded == Encoded(resume, jd, i)
    {
      var (resumeKey, jobKey) := SectionPairs[i];
      var resumeText := Get(resume, resumeKey, "");
      var jobText := Get(jd, jobKey, "");
      StorePair(resume, jd, sim, i, similarities);
      if resumeText == "" || jobText == "" {
        similarities := Set(similarities, resumeKey + " \U{2194} " + jobKey, 0.0);
        continue;
      }
      encoded := encoded + [(resumeText, jobText)];
      similarities := Set(similarities, resumeKey + " \U{2194} " + jobKey, sim(resumeText, jobText));
    }
    var average := Mean(Values(similarities));
    StoreAverage(resume, jd, sim, similarities);
    similarities := Set(similarities, AverageSimilarity, average);
  }
}
